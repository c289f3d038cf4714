/** Writing a volume sector by sector: WriteSector and FlushFormatWriteBuffer of Common/Format.c. */
module FormatWriter {
  import opened Arithmetic
  import opened CryptoModes
  import opened CryptoSpec
  import Laws = CryptoLaws
  import Buffers = CryptoBuffers
  import Crypto

  const FormatWriteBufferSize := 1024 * 1024

  predicate ValidSectorSize(ss: nat) { ss == 512 || ss == 1024 || ss == 2048 || ss == 4096 }

  /** A sector that was formatted, and the key that was in use then. */
  datatype Item = Item(key: CryptoInfo, sector: Bytes)

  /** The sectors one after another. */
  function Plain(items: seq<Item>): Bytes {
    if items == [] then [] else Plain(items[..|items| - 1]) + items[|items| - 1].sector
  }

  /** The number of the data unit at the offset of a sector. */
  function UnitOf(sector: nat, ss: nat): nat { sector * ss / ENCRYPTION_DATA_UNIT_SIZE }

  /** Data units have 512 bytes. */
  lemma UnitOfOffset(sector: nat, ss: nat)
    requires ValidSectorSize(ss)
    ensures UnitOf(sector, ss) * 512 == sector * ss
  {
    UnitsIn(sector, ss / ENCRYPTION_DATA_UNIT_SIZE, ss);
  }

  /** The sectors as they belong on the device from sector `first` on: each encrypted by itself under its own
      key, with the number of the data unit at its byte offset. */
  function Encrypted(ciphers: Ciphers, ss: nat, first: nat, items: seq<Item>): Bytes {
    if items == [] then []
    else
      var n := |items| - 1;
      Encrypted(ciphers, ss, first, items[..n])
      + EncryptUnits(ciphers, items[n].key, UnitOf(first + n, ss), items[n].sector)
  }

  ghost predicate ValidItems(ciphers: Ciphers, ss: nat, items: seq<Item>) {
    forall i :: 0 <= i < |items| ==> |items[i].sector| == ss && ValidInfo(ciphers, items[i].key)
  }

  lemma {:induction false} PlainLength(ciphers: Ciphers, ss: nat, items: seq<Item>)
    requires ValidItems(ciphers, ss, items)
    ensures |Plain(items)| == |items| * ss
    decreases |items|
  {
    if items != [] {
      PlainLength(ciphers, ss, items[..|items| - 1]);
      MulDist(|items| - 1, 1, ss);
    }
  }

  lemma {:induction false} EncryptedAppend(ciphers: Ciphers, ss: nat, first: nat, a: seq<Item>, b: seq<Item>)
    ensures Encrypted(ciphers, ss, first, a + b) == Encrypted(ciphers, ss, first, a) + Encrypted(ciphers, ss, first + |a|, b)
    decreases |b|
  {
    hide EncryptUnits;
    if b == [] {
      assert a + b == a;
    } else {
      var n := |b| - 1;
      EncryptedAppend(ciphers, ss, first, a, b[..n]);
      assert (a + b)[..|a| + n] == a + b[..n];
    }
  }

  lemma UnitOfSector(first: nat, n: nat, ss: nat)
    requires ValidSectorSize(ss)
    ensures (first + n) * ss % ENCRYPTION_DATA_UNIT_SIZE == 0 && n * ss % ENCRYPTION_DATA_UNIT_SIZE == 0
    ensures UnitOf(first + n, ss) == UnitOf(first, ss) + n * ss / ENCRYPTION_DATA_UNIT_SIZE
  {
    var k := ss / ENCRYPTION_DATA_UNIT_SIZE;
    UnitsIn(first + n, k, ss);
    UnitsIn(first, k, ss);
    UnitsIn(n, k, ss);
    MulDist(first, n, k);
  }

  lemma UnitsIn(x: nat, k: nat, ss: nat)
    requires ss == k * ENCRYPTION_DATA_UNIT_SIZE
    ensures x * ss == (x * k) * ENCRYPTION_DATA_UNIT_SIZE
    ensures x * ss % ENCRYPTION_DATA_UNIT_SIZE == 0 && x * ss / ENCRYPTION_DATA_UNIT_SIZE == x * k
  {
    MulAssoc(x, k, ENCRYPTION_DATA_UNIT_SIZE);
    MultipleOf(x * k, ENCRYPTION_DATA_UNIT_SIZE);
  }

  predicate UnitsFit(first: nat, count: nat, ss: nat) { UnitOf(first + count, ss) < TWO_TO_THE_64 }

  lemma FewerUnitsFit(first: nat, count: nat, fewer: nat, ss: nat)
    requires ValidSectorSize(ss) && UnitsFit(first, count, ss) && fewer <= count
    ensures UnitsFit(first, fewer, ss)
  {
    var k := ss / ENCRYPTION_DATA_UNIT_SIZE;
    UnitsIn(first + count, k, ss);
    UnitsIn(first + fewer, k, ss);
    MulMono(first + fewer, first + count, k);
  }

  /** A buffer of sectors encrypted at once is each sector encrypted by itself. */
  lemma {:induction false} EncryptedAtOnce(ciphers: Ciphers, ss: nat, first: nat, items: seq<Item>, ci: CryptoInfo)
    requires Laws.LengthPreserving(ciphers) && ValidInfo(ciphers, ci) && ValidSectorSize(ss) && ValidItems(ciphers, ss, items)
    requires UnitsFit(first, |items|, ss) && forall i :: 0 <= i < |items| ==> items[i].key == ci
    ensures EncryptUnits(ciphers, ci, UnitOf(first, ss), Plain(items)) == Encrypted(ciphers, ss, first, items)
    decreases |items|
  {
    hide EncryptUnits; hide ValidInfo; hide Laws.LengthPreserving; hide UnitsFit; hide UnitOf;
    var unit := UnitOf(first, ss);
    FewerUnitsFit(first, |items|, 0, ss);
    SmallUnit(first, 0, ss);
    if items == [] {
      Laws.UnitsLength(ciphers, ci, unit, []);
    } else {
      var n := |items| - 1;
      var a, b := Plain(items[..n]), items[n].sector;
      FewerUnitsFit(first, |items|, n, ss);
      EncryptedAtOnce(ciphers, ss, first, items[..n], ci);
      PlainLength(ciphers, ss, items[..n]);
      UnitOfSector(first, n, ss);
      SmallUnit(first, n, ss);
      Laws.UnitsSplit(ciphers, ci, unit, a, b);
    }
  }

  lemma SmallUnit(first: nat, n: nat, ss: nat)
    requires UnitsFit(first, n, ss)
    ensures var u := UnitOf(first + n, ss); u < TWO_TO_THE_64 && u % TWO_TO_THE_64 == u
  {
  }

  lemma {:induction false} EncryptedLength(ciphers: Ciphers, ss: nat, first: nat, items: seq<Item>)
    requires Laws.LengthPreserving(ciphers) && ValidSectorSize(ss) && ValidItems(ciphers, ss, items) && UnitsFit(first, |items|, ss)
    ensures |Encrypted(ciphers, ss, first, items)| == |items| * ss
    decreases |items|
  {
    hide EncryptUnits; hide ValidInfo; hide Laws.LengthPreserving; hide UnitsFit; hide UnitOf;
    if items != [] {
      var n := |items| - 1;
      FewerUnitsFit(first, |items|, n, ss);
      EncryptedLength(ciphers, ss, first, items[..n]);
      OneSector(ciphers, ss, first, n, items[n]);
      MulDist(n, 1, ss);
    }
  }

  lemma OneSector(ciphers: Ciphers, ss: nat, first: nat, n: nat, item: Item)
    requires Laws.LengthPreserving(ciphers) && ValidSectorSize(ss) && |item.sector| == ss && ValidInfo(ciphers, item.key) && UnitsFit(first, n, ss)
    ensures |EncryptUnits(ciphers, item.key, UnitOf(first + n, ss), item.sector)| == ss
  {
    hide EncryptUnits; hide ValidInfo; hide Laws.LengthPreserving; hide UnitsFit; hide UnitOf;
    SmallUnit(first, n, ss);
    assert ss % ENCRYPTION_DATA_UNIT_SIZE == 0;
    Laws.UnitsLength(ciphers, item.key, UnitOf(first + n, ss), item.sector);
  }

  /** Main result on placement: sector i lies at i sectors from the first one, encrypted with the data-unit number of
      its offset on the device. */
  lemma SectorInPlace(ciphers: Ciphers, ss: nat, first: nat, items: seq<Item>, i: nat)
    requires Laws.LengthPreserving(ciphers) && ValidSectorSize(ss) && ValidItems(ciphers, ss, items) && UnitsFit(first, |items|, ss)
    requires i < |items|
    ensures i * ss + ss <= |Encrypted(ciphers, ss, first, items)|
    ensures Encrypted(ciphers, ss, first, items)[i * ss..i * ss + ss]
         == EncryptUnits(ciphers, items[i].key, UnitOf(first + i, ss), items[i].sector)
  {
    hide EncryptUnits; hide ValidInfo; hide Laws.LengthPreserving; hide UnitsFit; hide UnitOf;
    SectorBetween(ciphers, ss, first, items, i);
    FewerUnitsFit(first, |items|, i, ss);
    EncryptedLength(ciphers, ss, first, items[..i]);
    OneSector(ciphers, ss, first, i, items[i]);
    Middle(Encrypted(ciphers, ss, first, items[..i]), EncryptUnits(ciphers, items[i].key, UnitOf(first + i, ss), items[i].sector),
           Encrypted(ciphers, ss, first + i + 1, items[i + 1..]));
  }

  lemma SectorBetween(ciphers: Ciphers, ss: nat, first: nat, items: seq<Item>, i: nat)
    requires i < |items|
    ensures Encrypted(ciphers, ss, first, items)
         == Encrypted(ciphers, ss, first, items[..i]) + EncryptUnits(ciphers, items[i].key, UnitOf(first + i, ss), items[i].sector)
            + Encrypted(ciphers, ss, first + i + 1, items[i + 1..])
  {
    hide EncryptUnits; hide UnitOf;
    var a, b := items[..i + 1], items[i + 1..];
    assert items == a + b && a[..i] == items[..i] && a[i] == items[i];
    EncryptedAppend(ciphers, ss, first, a, b);
  }

  lemma Middle(x: Bytes, y: Bytes, z: Bytes)
    ensures |x| + |y| <= |x + y + z| && (x + y + z)[|x|..|x| + |y|] == y
  {
  }

  /** How many sectors so many bytes are. */
  function Held(count: nat, ss: nat): nat
    requires ss > 0
  {
    count / ss
  }

  lemma HeldBytes(count: nat, ss: nat)
    requires ss > 0 && count % ss == 0
    ensures count == Held(count, ss) * ss
  {
    DivMod(count, ss);
  }

  lemma HeldNothing(ss: nat)
    requires ss > 0
    ensures Held(0, ss) == 0
  {
    DivModUnique(0, 0, ss);
  }

  /** The buffers one after another. */
  function Concat(buffers: seq<Bytes>): Bytes {
    if buffers == [] then [] else Concat(buffers[..|buffers| - 1]) + buffers[|buffers| - 1]
  }

  lemma ConcatNext(buffers: seq<Bytes>, next: Bytes)
    ensures Concat(buffers + [next]) == Concat(buffers) + next
  {
    assert (buffers + [next])[..|buffers|] == buffers;
  }

  /** Buffers that can be flushed. */
  predicate Flushable(buffers: seq<Bytes>) {
    forall k :: 0 <= k < |buffers| ==> 0 < |buffers[k]| <= FormatWriteBufferSize
  }

  /** Where full buffers go: the device, from the first sector of the volume on, or the write thread.  Which writes fail,
      and which requests the write thread refuses after a failed write, is up to the environment. */
  class Device {
    const WriteThreadRunning: bool
    const fails: nat -> bool
    var calls: nat
    var content: Bytes      // what the formatting thread itself has written
    var sent: seq<Bytes>    // the buffers of all flushes that returned TRUE

    constructor(threadRunning: bool, failing: nat -> bool)
      ensures content == [] && sent == [] && WriteThreadRunning == threadRunning && fails == failing
    {
      WriteThreadRunning, fails, calls, content, sent := threadRunning, failing, 0, [], [];
    }

    /** Appends to what was written before, or fails. */
    method WriteFile(buf: array<bv8>, n: nat) returns (ok: bool)
      requires n <= buf.Length
      modifies this
      ensures ok ==> content == old(content) + buf[..n] && sent == old(sent) + [buf[..n]]
    {
      calls := calls + 1;
      ok := !fails(calls);
      if ok { content, sent := content + buf[..n], sent + [buf[..n]]; }
    }

    /** Copies the buffer for the write thread, which writes it later, or refuses. */
    method HandOver(buf: array<bv8>, n: nat) returns (ok: bool)
      requires n <= buf.Length
      modifies this
      ensures content == old(content) && (ok ==> sent == old(sent) + [buf[..n]])
    {
      calls := calls + 1;
      ok := !fails(calls);
      if ok { sent := sent + [buf[..n]]; }
    }

    /** Without the write thread, what was sent is on the device. */
    predicate Valid()
      reads this
    {
      Flushable(sent) && (!WriteThreadRunning ==> content == Concat(sent))
    }
  }

  /** The locals of FormatFat and FormatNoFs that WriteSector works on. */
  class Writer {
    const ciphers: Ciphers
    const ss: nat                 // FormatSectorSize
    const first: nat              // startSector
    const dev: Device
    const write_buf: array<bv8>
    var write_buf_cnt: nat
    var nSecNo: nat
    ghost var items: seq<Item>    // all sectors so far

    /** What was sent and what is in the buffer together are the sectors so far. */
    ghost predicate Valid()
      reads this, dev, write_buf
    {
      && Laws.LengthPreserving(ciphers) && ValidSectorSize(ss) && write_buf.Length == FormatWriteBufferSize
      && write_buf_cnt % ss == 0 && write_buf_cnt <= FormatWriteBufferSize
      && ValidItems(ciphers, ss, items)
      && nSecNo == first + |items| && Held(write_buf_cnt, ss) <= |items|
      && dev.Valid() && Concat(dev.sent) == Encrypted(ciphers, ss, first, items[..|items| - Held(write_buf_cnt, ss)])
      && write_buf[..write_buf_cnt] == Plain(items[|items| - Held(write_buf_cnt, ss)..])
    }

    /** The sectors in the buffer are to be encrypted with this key. */
    ghost predicate PendingUnder(key: CryptoInfo)
      reads this
      requires ss > 0
    {
      forall i :: 0 <= i < |items| && |items| - Held(write_buf_cnt, ss) <= i ==> items[i].key == key
    }

    constructor(c: Ciphers, sectorSize: nat, startSector: nat, device: Device)
      requires Laws.LengthPreserving(c) && ValidSectorSize(sectorSize) && device.content == [] && device.sent == []
      ensures Valid() && fresh(write_buf) && items == [] && write_buf_cnt == 0
      ensures ciphers == c && ss == sectorSize && first == startSector && dev == device
    {
      hide EncryptUnits; hide Laws.LengthPreserving; hide ValidInfo; hide Held;
      HeldNothing(sectorSize);
      ciphers, ss, first, dev := c, sectorSize, startSector, device;
      write_buf := new bv8[FormatWriteBufferSize];
      write_buf_cnt, nSecNo, items := 0, startSector, [];
    }

    /** Encrypts what is in the buffer. */
    method EncryptPending(key: CryptoInfo, parallel: bool)
      requires Valid() && PendingUnder(key) && ValidInfo(ciphers, key) && UnitsFit(first, |items|, ss)
      modifies write_buf
      ensures Concat(dev.sent) + write_buf[..write_buf_cnt] == Encrypted(ciphers, ss, first, items)
    {
      hide EncryptUnits; hide ValidInfo; hide Laws.LengthPreserving; hide UnitsFit; hide UnitOf; hide Buffers.Replace; hide Encrypted; hide Plain; hide Held;
      ghost var k := Held(write_buf_cnt, ss);
      HeldBytes(write_buf_cnt, ss);
      ghost var done, pending := items[..|items| - k], items[|items| - k..];
      assert items == done + pending;
      UnitAtBuffer(first, |done|, ss, k, write_buf_cnt, nSecNo);
      var unitNo := (nSecNo * ss - write_buf_cnt) / ENCRYPTION_DATA_UNIT_SIZE;
      FewerUnitsFit(first, |items|, |done|, ss);
      SmallUnit(first, |done|, ss);
      Crypto.EncryptDataUnitsCurrentThread(ciphers, key, write_buf, 0, unitNo, write_buf_cnt / ENCRYPTION_DATA_UNIT_SIZE, parallel);
      EncryptedPending(ciphers, ss, first, done, pending, key);
      assert old(write_buf[0..write_buf_cnt]) == Plain(pending);
      ghost var y := EncryptUnits(ciphers, key, unitNo, Plain(pending));
      PrefixOf(old(write_buf[..]), y, write_buf[..]);
    }

    /** FlushFormatWriteBuffer. */
    method Flush(key: CryptoInfo, parallel: bool) returns (ok: bool)
      requires Valid() && PendingUnder(key) && ValidInfo(ciphers, key) && UnitsFit(first, |items|, ss)
      modifies this, dev, write_buf
      ensures items == old(items) && nSecNo == old(nSecNo)
      ensures ok ==> Valid() && write_buf_cnt == 0 && Concat(dev.sent) == Encrypted(ciphers, ss, first, items)
    {
      hide EncryptUnits; hide ValidInfo; hide Laws.LengthPreserving; hide UnitsFit; hide UnitOf; hide Encrypted; hide Plain; hide Held; hide Concat;
      HeldNothing(ss);
      NothingPending(items);
      assert Held(write_buf_cnt, ss) == 0 ==> items[..|items| - Held(write_buf_cnt, ss)] == items;
      if write_buf_cnt == 0 { return true; }
      EncryptPending(key, parallel);
      ConcatNext(dev.sent, write_buf[..write_buf_cnt]);
      if dev.WriteThreadRunning {
        ok := dev.HandOver(write_buf, write_buf_cnt);
      } else {
        ok := dev.WriteFile(write_buf, write_buf_cnt);
      }
      if ok { write_buf_cnt := 0; }
    }

    /** Appends a sector to the buffer. */
    method Append(sector: Bytes, ghost key: CryptoInfo)
      requires Valid() && write_buf_cnt < FormatWriteBufferSize && PendingUnder(key) && ValidInfo(ciphers, key) && |sector| == ss
      modifies this, write_buf
      ensures items == old(items) + [Item(key, sector)] && nSecNo == old(nSecNo) + 1
      ensures Valid() && PendingUnder(key)
    {
      hide EncryptUnits; hide ValidInfo; hide Laws.LengthPreserving; hide Encrypted; hide Plain; hide Held;
      RoomForSector(ss, write_buf_cnt);
      ghost var k := Held(write_buf_cnt, ss);
      ghost var done, pending := items[..|items| - k], items[|items| - k..];
      nSecNo := nSecNo + 1;
      ghost var before, count := write_buf[..], write_buf_cnt;
      forall i | 0 <= i < ss { write_buf[write_buf_cnt + i] := sector[i]; }
      write_buf_cnt := write_buf_cnt + ss;
      items := items + [Item(key, sector)];
      assert items[..|items| - (k + 1)] == done && items[|items| - (k + 1)..] == pending + [Item(key, sector)];
      PlainNext(pending, Item(key, sector));
      assert write_buf[..write_buf_cnt] == before[..count] + sector;
    }

    /** WriteSector; `aborted` is what UpdateProgressBar returns, if it is called. */
    method WriteSector(sector: Bytes, key: CryptoInfo, aborted: bool, parallel: bool) returns (ok: bool)
      requires Valid() && write_buf_cnt < FormatWriteBufferSize && PendingUnder(key) && ValidInfo(ciphers, key) && |sector| == ss
      requires UnitsFit(first, |items| + 1, ss)
      modifies this, dev, write_buf
      ensures items == old(items) + [Item(key, sector)] && nSecNo == old(nSecNo) + 1
      ensures ok ==> Valid() && write_buf_cnt < FormatWriteBufferSize && PendingUnder(key)
    {
      hide ValidInfo; hide UnitsFit; hide UnitOf; hide Encrypted; hide ValidItems; hide Plain; hide Held;
      HeldNothing(ss);
      Append(sector, key);
      if write_buf_cnt == FormatWriteBufferSize {
        ok := Flush(key, parallel);
        if !ok { return; }
      }
      ok := !aborted;
    }
  }

  lemma PlainNext(items: seq<Item>, next: Item)
    ensures Plain(items + [next]) == Plain(items) + next.sector
  {
    assert (items + [next])[..|items|] == items;
  }

  lemma RoomForSector(ss: nat, count: nat)
    requires ValidSectorSize(ss) && count % ss == 0 && count < FormatWriteBufferSize
    ensures count + ss <= FormatWriteBufferSize && (count + ss) % ss == 0 && Held(count + ss, ss) == Held(count, ss) + 1
  {
    var k, m := Held(count, ss), FormatWriteBufferSize / ss;
    assert FormatWriteBufferSize == m * ss;
    HeldBytes(count, ss);
    if k >= m { MulMono(m, k, ss); }
    MulMono(k + 1, m, ss);
    MulDist(k, 1, ss);
    DivModUnique(k + 1, 0, ss);
  }

  /** The number of the data unit with which the buffer starts. */
  lemma UnitAtBuffer(first: nat, done: nat, ss: nat, k: nat, count: nat, nSecNo: nat)
    requires ValidSectorSize(ss) && count == k * ss && nSecNo == first + done + k
    ensures nSecNo * ss >= count && (nSecNo * ss - count) / ENCRYPTION_DATA_UNIT_SIZE == UnitOf(first + done, ss)
    ensures count / ENCRYPTION_DATA_UNIT_SIZE * ENCRYPTION_DATA_UNIT_SIZE == count
  {
    MulDist(first + done, k, ss);
    UnitOfSector(0, k, ss);
  }

  lemma EncryptedPending(ciphers: Ciphers, ss: nat, first: nat, done: seq<Item>, pending: seq<Item>, key: CryptoInfo)
    requires Laws.LengthPreserving(ciphers) && ValidInfo(ciphers, key) && ValidSectorSize(ss) && ValidItems(ciphers, ss, done + pending)
    requires UnitsFit(first, |done| + |pending|, ss) && forall i :: 0 <= i < |pending| ==> pending[i].key == key
    ensures Encrypted(ciphers, ss, first, done + pending)
         == Encrypted(ciphers, ss, first, done) + EncryptUnits(ciphers, key, UnitOf(first + |done|, ss), Plain(pending))
    ensures |Plain(pending)| == |pending| * ss
  {
    hide EncryptUnits; hide ValidInfo; hide Laws.LengthPreserving; hide Encrypted; hide Plain;
    assert ValidItems(ciphers, ss, pending) by {
      forall i | 0 <= i < |pending| ensures |pending[i].sector| == ss && ValidInfo(ciphers, pending[i].key) {
        assert pending[i] == (done + pending)[|done| + i];
      }
    }
    assert first + |done| + |pending| == first + (|done| + |pending|);
    EncryptedAppend(ciphers, ss, first, done, pending);
    EncryptedAtOnce(ciphers, ss, first + |done|, pending, key);
    PlainLength(ciphers, ss, pending);
  }

  lemma PrefixOf(before: Bytes, y: Bytes, after: Bytes)
    requires |y| <= |before| && after == Buffers.Replace(before, 0, y)
    ensures |after| == |before| && after[..|y|] == y
  {
  }

  lemma NothingPending(items: seq<Item>)
    ensures items[..|items|] == items && Plain(items[|items|..]) == []
  {
  }
}
