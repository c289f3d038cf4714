/** Keyfiles mixed into a password, Common/Keyfiles.c. */
module Keyfiles {
  import opened Words
  import Crc

  type Bytes = seq<bv8>

  const KEYFILE_POOL_SIZE := 64
  const KEYFILE_MAX_READ_LEN := 1024 * 1024
  const MAX_PASSWORD := 64

  // ---- The pool as a value ----

  type Pool = s: Bytes | |s| == 64 witness ZeroPool()

  function ZeroPool(): (s: Bytes)
    ensures |s| == 64
  {
    seq(64, _ => 0)
  }

  function AddByte(x: bv8, y: bv8): bv8 { x + y }

  /** Addition byte by byte, modulo 256. */
  function Plus(a: Pool, b: Pool): (s: Pool) {
    seq(64, i requires 0 <= i < 64 => AddByte(a[i], b[i]))
  }

  lemma AddLaws(x: bv8, y: bv8, z: bv8)
    ensures AddByte(x, y) == AddByte(y, x) && AddByte(x, 0) == x && AddByte(0, x) == x
    ensures AddByte(AddByte(x, y), z) == AddByte(x, AddByte(y, z))
  {
    calc {
      AddByte(AddByte(x, y), z);
      AddByte(x + y, z);
      (x + y) + z;
      x + (y + z);
      AddByte(x, y + z);
      AddByte(x, AddByte(y, z));
    }
  }

  lemma PlusLaws(a: Pool, b: Pool, c: Pool)
    ensures Plus(a, b) == Plus(b, a) && Plus(Plus(a, b), c) == Plus(a, Plus(b, c))
    ensures Plus(a, ZeroPool()) == a && Plus(ZeroPool(), a) == a
  {
    hide AddByte;
    forall i | 0 <= i < 64
      ensures AddByte(a[i], b[i]) == AddByte(b[i], a[i]) && AddByte(AddByte(a[i], b[i]), c[i]) == AddByte(a[i], AddByte(b[i], c[i]))
      ensures AddByte(a[i], 0) == a[i] && AddByte(0, a[i]) == a[i]
    {
      AddLaws(a[i], b[i], c[i]);
    }
    var z := ZeroPool();
    assert forall i :: 0 <= i < 64 ==> z[i] == 0;
  }

  function ByteOf(crc: bv32, k: nat): bv8 {
    if k == 0 then ((crc >> 24) & 0xff) as bv8
    else if k == 1 then ((crc >> 16) & 0xff) as bv8
    else if k == 2 then ((crc >> 8) & 0xff) as bv8
    else (crc & 0xff) as bv8
  }

  /** The four bytes of a CRC added from a position on. */
  function AddAt(pool: Pool, pos: nat, crc: bv32): Pool
    requires pos + 4 <= 64
  {
    pool[pos := AddByte(pool[pos], ByteOf(crc, 0))]
    [pos + 1 := AddByte(pool[pos + 1], ByteOf(crc, 1))]
    [pos + 2 := AddByte(pool[pos + 2], ByteOf(crc, 2))]
    [pos + 3 := AddByte(pool[pos + 3], ByteOf(crc, 3))]
  }

  function NextPosition(pos: nat): nat { if pos + 4 >= KEYFILE_POOL_SIZE then 0 else pos + 4 }

  predicate Position(pos: nat) { pos % 4 == 0 && pos + 4 <= KEYFILE_POOL_SIZE }

  /** The pool after the bytes of a keyfile, with the running CRC and the position to write to. */
  function Mixed(pool: Pool, crc: bv32, pos: nat, data: Bytes): Pool
    requires Position(pos)
    decreases |data|
  {
    if data == [] then pool
    else
      var next := Crc.Update(data[0], crc);
      Mixed(AddAt(pool, pos, next), next, NextPosition(pos), data[1..])
  }

  function Take(data: Bytes, n: nat): Bytes { if |data| <= n then data else data[..n] }

  /** What a keyfile with these contents adds to the pool. */
  function Contribution(data: Bytes): Pool { Mixed(ZeroPool(), 0xffffffff, 0, Take(data, KEYFILE_MAX_READ_LEN)) }

  lemma AddAtIsPlus(pool: Pool, pos: nat, crc: bv32)
    requires Position(pos)
    ensures AddAt(pool, pos, crc) == Plus(pool, AddAt(ZeroPool(), pos, crc))
  {
    hide AddByte; hide ByteOf;
    var l, z := AddAt(pool, pos, crc), AddAt(ZeroPool(), pos, crc);
    var r := Plus(pool, z);
    forall i | 0 <= i < 64 ensures l[i] == r[i] {
      assert ZeroPool()[i] == 0;
      AddLaws(pool[i], 0, 0);
      AddLaws(ByteOf(crc, if 0 <= i - pos < 4 then i - pos else 0), 0, 0);
    }
  }

  /** What is added does not depend on what is there. */
  lemma {:induction false} MixedIsPlus(pool: Pool, crc: bv32, pos: nat, data: Bytes)
    requires Position(pos)
    ensures Mixed(pool, crc, pos, data) == Plus(pool, Mixed(ZeroPool(), crc, pos, data))
    decreases |data|
  {
    hide Plus; hide AddAt; hide ZeroPool; hide Crc.Update;
    if data == [] {
      PlusLaws(pool, pool, pool);
    } else {
      var next, p, rest := Crc.Update(data[0], crc), NextPosition(pos), data[1..];
      var c := AddAt(ZeroPool(), pos, next);
      AddAtIsPlus(pool, pos, next);
      MixedIsPlus(AddAt(pool, pos, next), next, p, rest);
      MixedIsPlus(c, next, p, rest);
      PlusLaws(pool, c, Mixed(ZeroPool(), next, p, rest));
    }
  }

  /** Bytes after the first megabyte do not matter. */
  lemma CutOff(data: Bytes, more: Bytes)
    requires |data| >= 0x10_0000
    ensures Contribution(data + more) == Contribution(data)
  {
    assert Take(data + more, KEYFILE_MAX_READ_LEN) == Take(data, KEYFILE_MAX_READ_LEN);
  }

  function PositionAfter(pos: nat, n: nat): nat { (pos + 4 * n) % KEYFILE_POOL_SIZE }

  lemma NextAfter(pos: nat, n: nat)
    requires Position(pos) && n > 0
    ensures Position(NextPosition(pos)) && PositionAfter(NextPosition(pos), n - 1) == PositionAfter(pos, n)
  {
  }

  lemma NoneAfter(pos: nat)
    requires Position(pos)
    ensures PositionAfter(pos, 0) == pos
  {
  }

  lemma {:induction false} MixedAppend(pool: Pool, crc: bv32, pos: nat, a: Bytes, b: bv8)
    requires Position(pos)
    ensures Position(PositionAfter(pos, |a|))
    ensures Mixed(pool, crc, pos, a + [b]) == AddAt(Mixed(pool, crc, pos, a), PositionAfter(pos, |a|), Crc.Register(crc, a + [b]))
    decreases |a|
  {
    hide AddAt; hide Crc.Update; hide Crc.EightSteps; hide Words.Xor; hide Words.Extend; hide PositionAfter;
    if a == [] {
      NoneAfter(pos);
      var x := [b];
      assert a + x == x && x[1..] == [];
      Crc.UpdateIsSteps(b, crc);
      Crc.NextByte(crc, x);
      Crc.LastByte(Crc.Update(b, crc));
    } else {
      var next := Crc.Update(a[0], crc);
      assert (a + [b])[0] == a[0] && (a + [b])[1..] == a[1..] + [b];
      Crc.UpdateIsSteps(a[0], crc);
      Crc.NextByte(crc, a + [b]);
      MixedAppend(AddAt(pool, pos, next), next, NextPosition(pos), a[1..], b);
      NextAfter(pos, |a|);
    }
  }

  /** The bytes of a CRC by arithmetic, the most significant one first. */
  lemma ByteArithmetic(crc: bv32)
    ensures ByteOf(crc, 0) == (crc / 0x100_0000) as bv8
    ensures ByteOf(crc, 1) == (crc / 0x1_0000 % 0x100) as bv8
    ensures ByteOf(crc, 2) == (crc / 0x100 % 0x100) as bv8
    ensures ByteOf(crc, 3) == (crc % 0x100) as bv8
  {
  }

  lemma AddAtBytes(pool: Pool, p: nat, crc: bv32)
    requires p + 4 <= 64
    ensures var after := AddAt(pool, p, crc);
            && after[p] == AddByte(pool[p], ByteOf(crc, 0)) && after[p + 1] == AddByte(pool[p + 1], ByteOf(crc, 1))
            && after[p + 2] == AddByte(pool[p + 2], ByteOf(crc, 2)) && after[p + 3] == AddByte(pool[p + 3], ByteOf(crc, 3))
            && forall i :: 0 <= i < 64 && !(p <= i < p + 4) ==> after[i] == pool[i]
  {
    hide AddByte; hide ByteOf;
  }

  /** Where byte number n is added. */
  lemma AddedAt(data: Bytes, b: bv8)
    requires |data| < KEYFILE_MAX_READ_LEN
    ensures 4 * |data| % 64 + 4 <= 64
    ensures Contribution(data + [b]) == AddAt(Contribution(data), 4 * |data| % 64, Crc.Register(0xffffffff, data + [b]))
  {
    hide Mixed; hide AddAt; hide Crc.Register;
    MixedAppend(ZeroPool(), 0xffffffff, 0, data, b);
  }

  /** Byte number n < 2^20 adds the CRC of the first n + 1 bytes, the most significant byte first, to four bytes of the
      pool from position 4 n modulo 64 on, each modulo 256. */
  lemma ByteContributes(data: Bytes, b: bv8)
    requires |data| < 0x10_0000
    ensures var p, crc := 4 * |data| % 64, Crc.Register(0xffffffff, data + [b]);
            var before, after := Contribution(data), Contribution(data + [b]);
            && p + 4 <= 64
            && after[p] == AddByte(before[p], (crc / 0x100_0000) as bv8)
            && after[p + 1] == AddByte(before[p + 1], (crc / 0x1_0000 % 0x100) as bv8)
            && after[p + 2] == AddByte(before[p + 2], (crc / 0x100 % 0x100) as bv8)
            && after[p + 3] == AddByte(before[p + 3], (crc % 0x100) as bv8)
            && forall i :: 0 <= i < 64 && !(p <= i < p + 4) ==> after[i] == before[i]
  {
    hide Contribution; hide AddAt; hide Crc.Register; hide AddByte; hide ByteOf;
    var p, crc, before := 4 * |data| % 64, Crc.Register(0xffffffff, data + [b]), Contribution(data);
    AddedAt(data, b);
    AddAtBytes(before, p, crc);
    ByteArithmetic(crc);
  }

  lemma NothingContributed()
    ensures Contribution([]) == ZeroPool()
  {
  }

  lemma CrcOfOneByte()
    ensures Crc.Register(0xffffffff, [0x61]) == 0x174841BC
  {
    Crc.OneByte(0xffffffff, 0x61);
    assert Words.Xor(0xffffffff, Words.Extend(0x61)) == 0xffffff9e;
    assert Crc.EightSteps(0xffffff9e) == 0x174841BC;
  }

  /** A keyfile that holds the byte 0x61. */
  lemma OneByteKeyfile()
    ensures Contribution([0x61]) == [0x17, 0x48, 0x41, 0xbc] + seq(60, _ => 0)
  {
    hide Crc.Register; hide ZeroPool; hide Mixed;
    CrcOfOneByte();
    NothingContributed();
    ByteContributes([], 0x61);
    var one: Bytes := [0x61];
    assert [] + [0x61] == one;
    var r := Contribution(one);
    assert ZeroPool()[0] == 0 && ZeroPool()[1] == 0;
  }

  lemma ModuloSums()
    ensures AddByte(0x17, 0x17) == 0x2e && AddByte(0x48, 0x48) == 0x90 && AddByte(0x41, 0x41) == 0x82 && AddByte(0xbc, 0xbc) == 0x78
    ensures AddByte(0, 0) == 0
  {
  }

  // ---- All keyfiles ----

  /** The pool after all of these keyfiles. */
  function Total(files: seq<Bytes>): Pool {
    if files == [] then ZeroPool() else Plus(Total(files[..|files| - 1]), Contribution(files[|files| - 1]))
  }

  lemma {:induction false} TotalRemove(files: seq<Bytes>, k: nat)
    requires k < |files|
    ensures Total(files) == Plus(Total(files[..k] + files[k + 1..]), Contribution(files[k]))
    decreases |files|
  {
    hide Plus; hide Contribution; hide ZeroPool;
    var n := |files| - 1;
    if k == n {
      assert files[..k] + files[k + 1..] == files[..n];
    } else {
      var shorter := files[..n];
      TotalRemove(shorter, k);
      var rest, without := shorter[..k] + shorter[k + 1..], files[..k] + files[k + 1..];
      assert without[..|without| - 1] == rest && without[|without| - 1] == files[n];
      var t, x, y := Total(rest), Contribution(files[k]), Contribution(files[n]);
      PlusLaws(t, x, y);
      PlusLaws(t, y, x);
      PlusLaws(x, y, t);
    }
  }

  lemma WithoutOne<T>(s: seq<T>, k: nat)
    requires k < |s|
    ensures multiset(s) == multiset(s[..k] + s[k + 1..]) + multiset{s[k]}
  {
    assert s == s[..k] + [s[k]] + s[k + 1..];
  }

  lemma CancelOne<T>(m: multiset<T>, n: multiset<T>, x: T)
    requires m + multiset{x} == n + multiset{x}
    ensures m == n
  {
    forall y: T ensures m[y] == n[y] { assert (m + multiset{x})[y] == (n + multiset{x})[y]; }
  }

  /** Main result: the order of keyfiles does not matter. */
  lemma {:induction false} OrderIrrelevant(a: seq<Bytes>, b: seq<Bytes>)
    requires multiset(a) == multiset(b)
    ensures Total(a) == Total(b)
    decreases |a|
  {
    hide Plus; hide Contribution; hide ZeroPool;
    assert |multiset(a)| == |a| && |multiset(b)| == |b|;
    if a != [] {
      var n := |a| - 1;
      assert a[n] in multiset(a);
      var k :| 0 <= k < |b| && b[k] == a[n];
      var shorter, rest := a[..n], b[..k] + b[k + 1..];
      WithoutOne(a, n);
      assert a[..n] + a[n + 1..] == shorter;
      WithoutOne(b, k);
      CancelOne(multiset(shorter), multiset(rest), a[n]);
      OrderIrrelevant(shorter, rest);
      TotalRemove(b, k);
    }
  }

  // ---- The program ----

  /** The loop body that both kinds of keyfile share: one byte. */
  method MixByte(keyPool: array<bv8>, octet: bv8, crc: bv32, writePos: nat) returns (crc': bv32, writePos': nat)
    requires keyPool.Length == KEYFILE_POOL_SIZE && Position(writePos)
    modifies keyPool
    ensures crc' == Crc.Update(octet, crc) && writePos' == NextPosition(writePos)
    ensures keyPool[..] == AddAt(old(keyPool[..]), writePos, crc')
  {
    hide AddByte; hide ByteOf; hide Crc.Update;
    crc' := Crc.Update(octet, crc);
    writePos' := writePos;
    keyPool[writePos'] := AddByte(keyPool[writePos'], ByteOf(crc', 0));
    writePos' := writePos' + 1;
    keyPool[writePos'] := AddByte(keyPool[writePos'], ByteOf(crc', 1));
    writePos' := writePos' + 1;
    keyPool[writePos'] := AddByte(keyPool[writePos'], ByteOf(crc', 2));
    writePos' := writePos' + 1;
    keyPool[writePos'] := AddByte(keyPool[writePos'], ByteOf(crc', 3));
    writePos' := writePos' + 1;
    if writePos' >= KEYFILE_POOL_SIZE { writePos' := 0; }
    assert keyPool[..] == AddAt(old(keyPool[..]), writePos, crc');
  }

  /** The bytes of one buffer, until the file has been read far enough; `rest` is what would come after it. */
  method MixBuffer(keyPool: array<bv8>, buffer: Bytes, crc: bv32, writePos: nat, totalRead: nat, ghost rest: Bytes)
    returns (crc': bv32, writePos': nat, totalRead': nat)
    requires keyPool.Length == KEYFILE_POOL_SIZE && Position(writePos) && totalRead < KEYFILE_MAX_READ_LEN
    modifies keyPool
    ensures totalRead' == if totalRead + |buffer| < KEYFILE_MAX_READ_LEN then totalRead + |buffer| else KEYFILE_MAX_READ_LEN
    ensures Position(writePos')
    ensures Mixed(keyPool[..], crc', writePos', Take(rest, KEYFILE_MAX_READ_LEN - totalRead'))
         == Mixed(old(keyPool[..]), crc, writePos, Take(buffer + rest, KEYFILE_MAX_READ_LEN - totalRead))
  {
    hide AddAt; hide Crc.Update; hide Mixed;
    crc', writePos', totalRead' := crc, writePos, totalRead;
    assert buffer[0..] == buffer;
    var i := 0;
    while i < |buffer|
      invariant 0 <= i <= |buffer| && totalRead' == totalRead + i && totalRead' < KEYFILE_MAX_READ_LEN && Position(writePos')
      invariant Mixed(keyPool[..], crc', writePos', Take(buffer[i..] + rest, KEYFILE_MAX_READ_LEN - totalRead'))
             == Mixed(old(keyPool[..]), crc, writePos, Take(buffer + rest, KEYFILE_MAX_READ_LEN - totalRead))
    {
      MixedNext(keyPool[..], crc', writePos', buffer[i..] + rest, KEYFILE_MAX_READ_LEN - totalRead');
      assert (buffer[i..] + rest)[1..] == buffer[i + 1..] + rest;
      crc', writePos' := MixByte(keyPool, buffer[i], crc', writePos');
      i := i + 1;
      totalRead' := totalRead' + 1;
      if totalRead' >= KEYFILE_MAX_READ_LEN {
        assert Take(buffer[i..] + rest, 0) == [] == Take(rest, 0);
        return;
      }
    }
    assert buffer[i..] + rest == rest;
  }

  lemma MixedNext(pool: Pool, crc: bv32, pos: nat, data: Bytes, n: nat)
    requires Position(pos) && data != [] && n > 0
    ensures Position(NextPosition(pos))
    ensures var next := Crc.Update(data[0], crc);
            Mixed(pool, crc, pos, Take(data, n)) == Mixed(AddAt(pool, pos, next), next, NextPosition(pos), Take(data[1..], n - 1))
  {
    hide AddAt; hide Crc.Update;
    assert Take(data, n)[1..] == Take(data[1..], n - 1);
  }

  /** One call of fread: the bytes it delivered, and whether ferror holds after it. */
  datatype Read = Read(data: Bytes, error: bool)

  /** What fopen and fread make of a file. */
  datatype Source = CannotOpen | Reads(calls: seq<Read>)

  /** The bytes up to the end of the file or the first error. */
  function Delivered(calls: seq<Read>): Bytes {
    if calls == [] || calls[0].data == [] || calls[0].error then [] else calls[0].data + Delivered(calls[1..])
  }

  /** Whether reading stops with an error before the end of the file. */
  function Fails(calls: seq<Read>): bool {
    calls != [] && (calls[0].error || (calls[0].data != [] && Fails(calls[1..])))
  }

  function SourceBytes(f: Source): Bytes { if f.CannotOpen? then [] else Delivered(f.calls) }

  /** KeyFileProcess succeeds with a file that has contents and, as far as it is used, no errors. */
  function Usable(f: Source): bool {
    && f.Reads? && Delivered(f.calls) != []
    && (|Delivered(f.calls)| >= KEYFILE_MAX_READ_LEN || !Fails(f.calls))
  }

  lemma MixedNothing(pool: Pool, crc: bv32, pos: nat)
    requires Position(pos)
    ensures Mixed(pool, crc, pos, []) == pool
  {
  }

  /** KeyFileProcess.  How the file's bytes are divided among calls of fread does not matter. */
  method KeyFileProcess(keyPool: array<bv8>, f: Source) returns (status: bool)
    requires keyPool.Length == KEYFILE_POOL_SIZE
    modifies keyPool
    ensures keyPool[..] == Plus(old(keyPool[..]), Contribution(SourceBytes(f)))
    ensures status == Usable(f)
  {
    hide Mixed; hide Plus;
    ghost var before: Pool := keyPool[..];
    MixedIsPlus(before, 0xffffffff, 0, Take(SourceBytes(f), KEYFILE_MAX_READ_LEN));
    if f.CannotOpen? {
      MixedNothing(before, 0xffffffff, 0);
      return false;
    }
    var crc: bv32, writePos: nat, totalRead: nat := 0xffffffff, 0, 0;
    ghost var all := Delivered(f.calls);
    var k := 0;
    assert f.calls[0..] == f.calls;
    while k < |f.calls| && f.calls[k].data != []
      invariant 0 <= k <= |f.calls| && totalRead < KEYFILE_MAX_READ_LEN && Position(writePos) && |keyPool[..]| == 64
      invariant totalRead + |Delivered(f.calls[k..])| == |all| && (totalRead == 0 ==> k == 0)
      invariant Fails(f.calls[k..]) == Fails(f.calls)
      invariant Mixed(keyPool[..], crc, writePos, Take(Delivered(f.calls[k..]), KEYFILE_MAX_READ_LEN - totalRead))
             == Mixed(before, 0xffffffff, 0, Take(all, KEYFILE_MAX_READ_LEN))
    {
      assert f.calls[k..][1..] == f.calls[k + 1..] && f.calls[k..][0] == f.calls[k];
      if f.calls[k].error {
        MixedNothing(keyPool[..], crc, writePos);
        return false;
      }
      crc, writePos, totalRead := MixBuffer(keyPool, f.calls[k].data, crc, writePos, totalRead, Delivered(f.calls[k + 1..]));
      if totalRead == KEYFILE_MAX_READ_LEN {
        MixedNothing(keyPool[..], crc, writePos);
        assert Take(Delivered(f.calls[k + 1..]), 0) == [];
        return true;
      }
      k := k + 1;
    }
    MixedNothing(keyPool[..], crc, writePos);
    if k < |f.calls| && f.calls[k].error {
      status := false;
    } else {
      status := totalRead != 0;
    }
  }

  /** A keyfile on a security token, of which the data are known at once; mixes in as a file does. */
  method MixToken(keyPool: array<bv8>, keyfileData: Bytes)
    requires keyPool.Length == KEYFILE_POOL_SIZE
    modifies keyPool
    ensures keyPool[..] == Plus(old(keyPool[..]), Contribution(keyfileData))
  {
    hide Mixed; hide Plus;
    ghost var before: Pool := keyPool[..];
    MixedIsPlus(before, 0xffffffff, 0, Take(keyfileData, KEYFILE_MAX_READ_LEN));
    ghost var rest: Bytes := [];
    assert keyfileData + rest == keyfileData;
    var crc, writePos, totalRead := MixBuffer(keyPool, keyfileData, 0xffffffff, 0, 0, rest);
    MixedNothing(keyPool[..], crc, writePos);
  }

  /** An entry of a directory. */
  datatype DirectoryEntry = NoStatus | Directory | Hidden | File(f: Source)

  /** An entry of the list of keyfiles. */
  datatype KeyFile =
    | Token(data: Bytes)
    | TokenError
    | NotFound
    | Folder(entries: seq<DirectoryEntry>)
    | NoListing           // a directory that cannot be listed
    | Single(f: Source)

  function EntryInputs(entries: seq<DirectoryEntry>): seq<Bytes> {
    if entries == [] then []
    else EntryInputs(entries[..|entries| - 1]) + match entries[|entries| - 1] case File(f) => [SourceBytes(f)] case _ => []
  }

  /** The byte strings that an entry of the list has mixed into the pool. */
  function Inputs(kf: KeyFile): seq<Bytes> {
    match kf
    case Token(data) => [data]
    case Single(f) => [SourceBytes(f)]
    case Folder(entries) => EntryInputs(entries)
    case _ => []
  }

  function AllInputs(list: seq<KeyFile>): seq<Bytes> {
    if list == [] then [] else AllInputs(list[..|list| - 1]) + Inputs(list[|list| - 1])
  }

  function EntryOk(e: DirectoryEntry): bool { !e.NoStatus? && (e.File? ==> Usable(e.f)) }

  function FolderOk(entries: seq<DirectoryEntry>): bool {
    (forall k :: 0 <= k < |entries| ==> EntryOk(entries[k])) && exists k :: 0 <= k < |entries| && entries[k].File?
  }

  function KeyFileOk(kf: KeyFile): bool {
    match kf
    case Token(data) => data != []
    case Single(f) => Usable(f)
    case Folder(entries) => FolderOk(entries)
    case _ => false
  }

  class Password {
    var Length: nat
    const Text: array<bv8>

    constructor(length: nat)
      requires length <= MAX_PASSWORD
      ensures Length == length && Text.Length == MAX_PASSWORD + 1 && fresh(Text)
    {
      Length, Text := length, new bv8[MAX_PASSWORD + 1];
    }

    predicate Valid()
      reads this
    {
      Length <= MAX_PASSWORD && Text.Length == MAX_PASSWORD + 1
    }

    /** The characters of the password. */
    function Chars(): Bytes
      requires Valid()
      reads this, Text
    {
      Text[..Length]
    }
  }

  lemma PlusZero(p: Pool)
    ensures Plus(p, Contribution([])) == p
  {
    MixedNothing(ZeroPool(), 0xffffffff, 0);
    PlusLaws(p, p, p);
    hide Plus; hide Mixed;
  }

  lemma {:induction false} TotalAppend(a: seq<Bytes>, b: seq<Bytes>)
    ensures Total(a + b) == Plus(Total(a), Total(b))
    decreases |b|
  {
    hide Plus; hide Contribution; hide ZeroPool;
    if b == [] {
      assert a + b == a;
      PlusLaws(Total(a), Total(a), Total(a));
    } else {
      var n := |b| - 1;
      assert (a + b)[..|a| + n] == a + b[..n] && (a + b)[|a| + n] == b[n];
      TotalAppend(a, b[..n]);
      PlusLaws(Total(a), Total(b[..n]), Contribution(b[n]));
    }
  }

  lemma TotalOne(x: Bytes)
    ensures Total([x]) == Contribution(x)
  {
    hide Plus; hide Contribution; hide ZeroPool;
    var one := [x];
    assert one[..0] == [];
    PlusLaws(Contribution(x), Contribution(x), Contribution(x));
    assert Total([]) == ZeroPool();
  }

  /** The same one-byte keyfile twice: bytes are added, without a carry from one to the next. */
  lemma SameKeyfileTwice()
    ensures Total([[0x61], [0x61]]) == [0x2e, 0x90, 0x82, 0x78] + seq(60, _ => 0)
  {
    hide AddByte; hide Contribution;
    var x: Bytes := [0x61];
    TotalOne(x);
    TotalAppend([x], [x]);
    assert [x] + [x] == [[0x61], [0x61]];
    OneByteKeyfile();
    ModuloSums();
  }

  /** A pool to which one more keyfile has been added. */
  lemma OneMore(pool: Pool, files: seq<Bytes>, x: Bytes, pool': Pool)
    requires pool == Total(files) && pool' == Plus(pool, Contribution(x))
    ensures pool' == Total(files + [x])
  {
    hide Plus; hide Contribution; hide ZeroPool;
    TotalOne(x);
    TotalAppend(files, [x]);
  }

  /** The files of a directory, in the order in which they are found. */
  method ApplyFolder(keyPool: array<bv8>, entries: seq<DirectoryEntry>, ghost before: seq<Bytes>) returns (status: bool)
    requires keyPool.Length == KEYFILE_POOL_SIZE && keyPool[..] == Total(before)
    modifies keyPool
    ensures keyPool[..] == Total(before + EntryInputs(entries))
    ensures status == FolderOk(entries)
  {
    hide Total; hide Plus; hide Contribution; hide Usable;
    status := true;
    var keyfileCount, k := 0, 0;
    assert before + EntryInputs(entries[..0]) == before;
    while k < |entries|
      invariant 0 <= k <= |entries| && |keyPool[..]| == 64
      invariant keyPool[..] == Total(before + EntryInputs(entries[..k]))
      invariant status == forall j :: 0 <= j < k ==> EntryOk(entries[j])
      invariant keyfileCount >= 0 && (keyfileCount > 0 <==> exists j :: 0 <= j < k && entries[j].File?)
    {
      assert entries[..k + 1][..k] == entries[..k];
      ghost var files := before + EntryInputs(entries[..k]);
      assert !entries[k].File? ==> EntryInputs(entries[..k + 1]) == EntryInputs(entries[..k]);
      match entries[k] {
        case NoStatus => status := false;
        case Directory =>
        case Hidden =>
        case File(f) =>
          ghost var pool: Pool := keyPool[..];
          keyfileCount := keyfileCount + 1;
          var ok := KeyFileProcess(keyPool, f);
          if !ok { status := false; }
          OneMore(pool, files, SourceBytes(f), keyPool[..]);
          assert files + [SourceBytes(f)] == before + EntryInputs(entries[..k + 1]);
      }
      k := k + 1;
    }
    assert entries[..k] == entries;
    if keyfileCount == 0 { status := false; }
  }

  predicate NoTokenError(list: seq<KeyFile>) { forall k :: 0 <= k < |list| ==> !list[k].TokenError? }

  /** KeyFilesApply.  An error of the token library ends it at once; other errors are reported at the end, after
      everything that could be read has been mixed in. */
  method KeyFilesApply(password: Password, list: seq<KeyFile>) returns (status: bool)
    requires password.Valid()
    modifies password, password.Text
    ensures password.Valid()
    ensures list == [] ==> status && password.Chars() == old(password.Chars())
    ensures !NoTokenError(list) ==> !status && password.Chars() == old(password.Chars())
    ensures list != [] && NoTokenError(list) ==>
              && status == (forall k :: 0 <= k < |list| ==> KeyFileOk(list[k]))
              && password.Chars() == Plus(Padded(old(password.Chars())), Total(AllInputs(list)))
  {
    hide Total; hide Plus; hide Contribution; hide KeyFileOk; hide AllInputs; hide ZeroPool;
    status := true;
    if list == [] { return; }
    var keyPool := new bv8[KEYFILE_POOL_SIZE](_ => 0);
    assert keyPool[..] == ZeroPool() by { NewPool(keyPool[..]); }
    NoFiles(list);
    var k := 0;
    while k < |list|
      invariant 0 <= k <= |list| && password.Valid() && password.Chars() == old(password.Chars())
      invariant NoTokenError(list[..k]) && keyPool[..] == Total(AllInputs(list[..k]))
      invariant status == forall j :: 0 <= j < k ==> KeyFileOk(list[j])
    {
      if list[k].TokenError? { return false; }
      NextInputs(list, k);
      var ok := ApplyOne(keyPool, list[k], AllInputs(list[..k]));
      if !ok { status := false; }
      k := k + 1;
    }
    assert list[..k] == list;
    MixIntoPassword(password, keyPool);
  }

  lemma NewPool(s: Bytes)
    requires |s| == 64 && forall i :: 0 <= i < 64 ==> s[i] == 0
    ensures s == ZeroPool()
  {
  }

  lemma NoFiles(list: seq<KeyFile>)
    ensures AllInputs(list[..0]) == [] && Total([]) == ZeroPool()
  {
  }

  lemma NextInputs(list: seq<KeyFile>, k: nat)
    requires k < |list|
    ensures AllInputs(list[..k + 1]) == AllInputs(list[..k]) + Inputs(list[k])
  {
    assert list[..k + 1][..k] == list[..k];
  }

  method ApplyOne(keyPool: array<bv8>, kf: KeyFile, ghost before: seq<Bytes>) returns (status: bool)
    requires keyPool.Length == KEYFILE_POOL_SIZE && keyPool[..] == Total(before) && !kf.TokenError?
    modifies keyPool
    ensures keyPool[..] == Total(before + Inputs(kf))
    ensures status == KeyFileOk(kf)
  {
    hide Total; hide Plus; hide Contribution; hide FolderOk; hide EntryInputs; hide Usable;
    ghost var pool: Pool := keyPool[..];
    assert before + [] == before;
    match kf {
      case Token(data) =>
        if data == [] {
          PlusZero(pool);
          OneMore(pool, before, data, pool);
          return false;
        }
        MixToken(keyPool, data);
        OneMore(pool, before, data, keyPool[..]);
        status := true;
      case NotFound => status := false;
      case NoListing => status := false;
      case Folder(entries) => status := ApplyFolder(keyPool, entries, before);
      case Single(f) =>
        status := KeyFileProcess(keyPool, f);
        OneMore(pool, before, SourceBytes(f), keyPool[..]);
    }
  }

  /** A password filled up with zeros. */
  function Padded(text: Bytes): Pool
    requires |text| <= MAX_PASSWORD
  {
    seq(64, i requires 0 <= i < 64 => if i < |text| then text[i] else 0)
  }

  /** What KeyFilesApply makes of the empty password, and of a password of one character, with a file that holds the
      byte 0x61. */
  lemma OneByteKeyfilePassword()
    ensures var list := [Single(Reads([Read([0x61], false)]))];
            && KeyFileOk(list[0])
            && Plus(Padded([]), Total(AllInputs(list))) == [0x17, 0x48, 0x41, 0xbc] + seq(60, _ => 0)
            && Plus(Padded([0x70]), Total(AllInputs(list))) == [0x87, 0x48, 0x41, 0xbc] + seq(60, _ => 0)
  {
    hide AddByte; hide Contribution; hide Total; hide ZeroPool;
    var f := Reads([Read([0x61], false)]);
    FileOfOneByte(f);
    TotalOne([0x61]);
    OneByteKeyfile();
    assert AddByte(0x70, 0x17) == 0x87 by { OneSum(); }
    forall x: bv8 ensures AddByte(0, x) == x { AddLaws(x, 0, 0); }
    ModuloSums();
  }

  lemma OneSum()
    ensures AddByte(0x70, 0x17) == 0x87
  {
  }

  lemma FileOfOneByte(f: Source)
    requires f == Reads([Read([0x61], false)])
    ensures Usable(f) && AllInputs([Single(f)]) == [[0x61]]
  {
    var calls := f.calls;
    assert calls[1..] == [];
    assert Delivered(calls) == calls[0].data + Delivered(calls[1..]) == [0x61];
    var one := [Single(f)];
    assert one[..0] == [];
    assert AllInputs(one) == AllInputs([]) + Inputs(Single(f));
  }

  /** The last loop of KeyFilesApply: characters are added where there are any, and written where there are none. */
  method MixIntoPassword(password: Password, keyPool: array<bv8>)
    requires password.Valid() && keyPool.Length == KEYFILE_POOL_SIZE && keyPool != password.Text
    modifies password, password.Text
    ensures password.Valid() && password.Length == MAX_PASSWORD
    ensures password.Chars() == Plus(Padded(old(password.Chars())), keyPool[..])
  {
    hide AddByte;
    ghost var text := password.Chars();
    var i := 0;
    while i < KEYFILE_POOL_SIZE
      invariant 0 <= i <= KEYFILE_POOL_SIZE && password.Valid() && password.Length == old(password.Length) && keyPool[..] == old(keyPool[..])
      invariant forall j :: 0 <= j < i ==> password.Text[j] == AddByte(if j < |text| then text[j] else 0, keyPool[j])
      invariant forall j :: i <= j < |text| ==> password.Text[j] == text[j]
    {
      AddLaws(keyPool[i], 0, 0);
      if i < password.Length {
        password.Text[i] := AddByte(password.Text[i], keyPool[i]);
      } else {
        password.Text[i] := keyPool[i];
      }
      i := i + 1;
    }
    if password.Length < KEYFILE_POOL_SIZE { password.Length := KEYFILE_POOL_SIZE; }
    assert password.Chars() == Plus(Padded(text), keyPool[..]);
  }

  /** Leaving out one key file before the last one leaves the last one last. */
  lemma WithoutEarlier(list: seq<KeyFile>, k: nat)
    requires k < |list| - 1
    ensures list[..k] + list[k + 1..] == (list[..|list| - 1][..k] + list[..|list| - 1][k + 1..]) + [list[|list| - 1]]
  {
  }

  lemma InputsAppend(list: seq<KeyFile>, x: KeyFile)
    ensures AllInputs(list + [x]) == AllInputs(list) + Inputs(x)
  {
    assert (list + [x])[..|list|] == list;
  }

  lemma {:induction false} InputsWithout(list: seq<KeyFile>, k: nat)
    requires k < |list|
    ensures multiset(AllInputs(list)) == multiset(AllInputs(list[..k] + list[k + 1..])) + multiset(Inputs(list[k]))
    decreases |list|
  {
    hide Inputs; hide AllInputs;
    var n := |list| - 1;
    var shorter := list[..n];
    assert list == shorter + [list[n]];
    InputsAppend(shorter, list[n]);
    if k == n {
      assert list[..k] + list[k + 1..] == shorter;
    } else {
      InputsWithout(shorter, k);
      WithoutEarlier(list, k);
      InputsAppend(shorter[..k] + shorter[k + 1..], list[n]);
    }
  }

  lemma {:induction false} SameInputs(a: seq<KeyFile>, b: seq<KeyFile>)
    requires multiset(a) == multiset(b)
    ensures multiset(AllInputs(a)) == multiset(AllInputs(b))
    decreases |a|
  {
    hide AllInputs; hide Inputs;
    assert |multiset(a)| == |a| && |multiset(b)| == |b|;
    if a == [] {
      assert a == b;
    } else {
      var n := |a| - 1;
      assert a[n] in multiset(a);
      var k :| 0 <= k < |b| && b[k] == a[n];
      var shorter, rest := a[..n], b[..k] + b[k + 1..];
      WithoutOne(a, n);
      assert a[..n] + a[n + 1..] == shorter;
      WithoutOne(b, k);
      CancelOne(multiset(shorter), multiset(rest), a[n]);
      SameInputs(shorter, rest);
      InputsWithout(a, n);
      InputsWithout(b, k);
    }
  }

  /** Main result: the same keyfiles in any order give the same password. */
  lemma SamePassword(text: Bytes, a: seq<KeyFile>, b: seq<KeyFile>)
    requires |text| <= MAX_PASSWORD && multiset(a) == multiset(b)
    ensures Plus(Padded(text), Total(AllInputs(a))) == Plus(Padded(text), Total(AllInputs(b)))
  {
    hide Plus; hide Total; hide AllInputs;
    SameInputs(a, b);
    OrderIrrelevant(AllInputs(a), AllInputs(b));
  }
}
