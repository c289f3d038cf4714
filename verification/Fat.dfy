/** Layout of a FAT file system, Common/Fat.c. */
module Fat {
  import opened Arithmetic
  import opened FatLayout

  const TC_SECTOR_SIZE_LEGACY := 512
  const TC_MAX_VOLUME_SECTOR_SIZE := 4096
  const TC_MIN_FAT_FS_SIZE := 9 * TC_MAX_VOLUME_SECTOR_SIZE
  const BYTES_PER_KB := 1024
  const BYTES_PER_MB := 1024 * BYTES_PER_KB
  const BYTES_PER_GB := 1024 * BYTES_PER_MB
  const BYTES_PER_TB := 1024 * BYTES_PER_GB
  const TC_MAX_FAT_CLUSTER_SIZE := 256 * BYTES_PER_KB
  const TWO_TO_THE_31 := 0x8000_0000
  const TWO_TO_THE_32 := 0x1_0000_0000
  const MAX_CLUSTERS := 0xFFF_F000 // up to here sizes in bytes fit the program's signed integers

  /** fatparams */
  class FatParams {
    var num_sectors: int
    var cluster_count: int
    var size_root_dir: int
    var size_fat: int
    var fats: int
    var media: int
    var cluster_size: int
    var fat_length: int
    var dir_entries: int
    var sector_size: int
    var hidden: int
    var reserved: int
    var sectors: int
    var total_sect: int
    var heads: int
    var secs_track: int

    constructor(numSectors: int, sectorSize: int, clusterSize: int)
      ensures num_sectors == numSectors && sector_size == sectorSize && cluster_size == clusterSize
    {
      num_sectors, sector_size, cluster_size := numSectors, sectorSize, clusterSize;
    }
  }

  predicate ValidSectorSize(ss: int) { ss == 512 || ss == 1024 || ss == 2048 || ss == 4096 }

  /** The cluster size in bytes for a volume of a given size. */
  function DefaultClusterBytes(volumeSize: nat): nat {
    if volumeSize >= 2 * BYTES_PER_TB then 256 * BYTES_PER_KB
    else if volumeSize >= 512 * BYTES_PER_GB then 128 * BYTES_PER_KB
    else if volumeSize >= 128 * BYTES_PER_GB then 64 * BYTES_PER_KB
    else if volumeSize >= 64 * BYTES_PER_GB then 32 * BYTES_PER_KB
    else if volumeSize >= 32 * BYTES_PER_GB then 16 * BYTES_PER_KB
    else if volumeSize >= 16 * BYTES_PER_GB then 8 * BYTES_PER_KB
    else if volumeSize >= 512 * BYTES_PER_MB then 4 * BYTES_PER_KB
    else if volumeSize >= 256 * BYTES_PER_MB then 2 * BYTES_PER_KB
    else if volumeSize >= 1 * BYTES_PER_MB then 1 * BYTES_PER_KB
    else 512
  }

  /** Default clusters: 512 bytes below 1 MB; from 1, 256 and 512 MB, 16, 32, 64, 128 and 512 GB, and 2 TB on, a power of
      two from 1 to 256 KB. */
  lemma DefaultClusters(volumeSize: nat)
    ensures DefaultClusterBytes(volumeSize) == 512 <==> volumeSize < 0x10_0000
    ensures DefaultClusterBytes(volumeSize) >= 1024 <==> volumeSize >= 0x10_0000
    ensures DefaultClusterBytes(volumeSize) >= 2048 <==> volumeSize >= 0x1000_0000
    ensures DefaultClusterBytes(volumeSize) >= 4096 <==> volumeSize >= 0x2000_0000
    ensures DefaultClusterBytes(volumeSize) >= 8192 <==> volumeSize >= 0x4_0000_0000
    ensures DefaultClusterBytes(volumeSize) >= 16384 <==> volumeSize >= 0x8_0000_0000
    ensures DefaultClusterBytes(volumeSize) >= 32768 <==> volumeSize >= 0x10_0000_0000
    ensures DefaultClusterBytes(volumeSize) >= 65536 <==> volumeSize >= 0x20_0000_0000
    ensures DefaultClusterBytes(volumeSize) >= 131072 <==> volumeSize >= 0x80_0000_0000
    ensures DefaultClusterBytes(volumeSize) >= 262144 <==> volumeSize >= 0x200_0000_0000
    ensures DefaultClusterBytes(volumeSize) in {512, 1024, 2048, 4096, 8192, 16384, 32768, 65536, 131072, 262144}
  {
  }

  /** Sectors per cluster if none are asked for: at least one, at most 128. */
  function DefaultClusterSize(numSectors: nat, ss: nat): nat
    requires ss > 0
  {
    var b := DefaultClusterBytes(VolumeSize(numSectors, ss)) / ss;
    if b == 0 then 1 else if b > 128 then 128 else b
  }

  function VolumeSize(numSectors: nat, ss: nat): nat { numSectors * ss }

  /** Small volumes get single sectors, others what was asked for or the default. */
  function ClusterSize(numSectors: nat, ss: nat, asked: nat): nat
    requires ss > 0
  {
    if VolumeSize(numSectors, ss) <= TC_MAX_FAT_CLUSTER_SIZE * 4 then 1
    else if asked > 0 then asked
    else DefaultClusterSize(numSectors, ss)
  }

  /** Volumes of up to 1 MB get clusters of one sector. */
  lemma SmallVolumes(numSectors: nat, ss: nat, asked: nat)
    requires ss > 0
    ensures numSectors * ss <= 0x10_0000 ==> ClusterSize(numSectors, ss, asked) == 1
    ensures numSectors * ss > 0x10_0000 && asked > 0 ==> ClusterSize(numSectors, ss, asked) == asked
  {
    hide DefaultClusterSize;
  }

  /** The first lines of GetFatParams: sectors per cluster. */
  method ChooseClusterSize(numSectors: nat, ss: nat, asked: nat) returns (cs: nat)
    requires ValidSectorSize(ss) && numSectors < TWO_TO_THE_32 && asked <= 128
    requires asked > 0 ==> Whole(numSectors, asked) <= MAX_CLUSTERS
    ensures 1 <= cs <= 128 && Whole(numSectors, cs) <= MAX_CLUSTERS
    ensures cs == ClusterSize(numSectors, ss, asked)
  {
    var volumeSize := numSectors * ss;
    cs := asked;
    if cs == 0 {
      var clusterSize := DefaultClusterBytes(volumeSize);
      cs := clusterSize / ss;
      if cs == 0 { cs := 1; }
      if cs * ss > TC_MAX_FAT_CLUSTER_SIZE { cs := TC_MAX_FAT_CLUSTER_SIZE / ss; }
      if cs > 128 { cs := 128; }
      DefaultIsLarge(numSectors, ss, cs);
    }
    if volumeSize <= TC_MAX_FAT_CLUSTER_SIZE * 4 {
      cs := 1;
      SmallVolume(numSectors, ss);
    }
  }

  lemma SmallVolume(n: nat, ss: nat)
    requires ValidSectorSize(ss) && n * ss <= TC_MAX_FAT_CLUSTER_SIZE * 4
    ensures n / 1 <= MAX_CLUSTERS
  {
    MulMono(512, ss, n);
  }

  /** Default clusters are large enough for FAT32 on every volume that FAT is used for. */
  lemma DefaultIsLarge(n: nat, ss: nat, cs: nat)
    requires ValidSectorSize(ss) && n < TWO_TO_THE_32 && cs > 0
    requires var b := DefaultClusterBytes(n * ss) / ss; cs == (if b == 0 then 1 else if b > 128 then 128 else b)
    ensures n / cs <= MAX_CLUSTERS
  {
    DefaultBound(n, ss, cs);
    QuotientBelow(n, cs, MAX_CLUSTERS + 1);
  }

  lemma QuotientBelow(n: nat, d: nat, q: nat)
    requires d > 0 && n < d * q
    ensures n / d < q
  {
    DivMod(n, d);
    if n / d >= q { MulMono(q, n / d, d); }
  }

  lemma DefaultBound(n: nat, ss: nat, cs: nat)
    requires ValidSectorSize(ss) && n < TWO_TO_THE_32 && cs > 0
    requires var b := DefaultClusterBytes(n * ss) / ss; cs == (if b == 0 then 1 else if b > 128 then 128 else b)
    ensures n < cs * (MAX_CLUSTERS + 1)
  {
    if ss == 512 { } else if ss == 1024 { } else if ss == 2048 { } else { }
  }

  // ---- GetFatParams ----

  lemma SameQuotient(x: nat, ss: nat, cs: nat)
    requires ss > 0 && cs > 0
    ensures cs * ss > 0 && (x * ss) / (cs * ss) == x / cs
  {
    DivMod(x, cs);
    var q, r := x / cs, x % cs;
    MulDist(q * cs, r, ss);
    MulAssoc(q, cs, ss);
    MulMono(1, cs, ss);
    MulMono(r + 1, cs, ss);
    MulDist(r, 1, ss);
    DivModUnique(q, r * ss, cs * ss);
  }

  lemma MonoDiv(a: nat, b: nat, d: nat)
    requires d > 0 && a <= b
    ensures a / d <= b / d
  {
    DivMod(a, d);
    DivMod(b, d);
    if a / d > b / d { MulMono(b / d + 1, a / d, d); MulDist(b / d, 1, d); }
  }

  /** Sectors of the root directory of FAT12 and FAT16. */
  function Root(ss: nat): nat
    requires ss > 0
  {
    512 * 32 / ss
  }

  /** A volume of the least size or more has room for what precedes the FATs and the root directory. */
  lemma SmallestVolume(n: nat, ss: nat)
    requires ValidSectorSize(ss) && VolumeSize(n, ss) >= TC_MIN_FAT_FS_SIZE
    ensures (512 * 32 + ss - 1) / ss == Root(ss) && (512 * 32) % ss == 0
    ensures n >= Root(ss) + 2 + 3
  {
    if ss == 512 { } else if ss == 1024 { } else if ss == 2048 { } else { }
  }

  /** Clusters less those the FATs take, in rounded steps: the true count or one more. */
  lemma RoundedDifference(a: nat, b: nat, d: nat)
    requires d > 0 && b <= a
    ensures a / d - b / d == (a - b) / d + if a % d < b % d then 1 else 0
  {
    DivMod(a, d);
    DivMod(b, d);
    var p, r, q, s := a / d, a % d, b / d, b % d;
    MulDist(p - q, q, d);
    MulDist(p - q - 1, 1, d);
    if r >= s { DivModUnique(p - q, r - s, d); } else { DivModUnique(p - q - 1, r + d - s, d); }
  }

  /** One line of the table of FAT types: clusters, and sectors of a FAT with entries of `bits` bits. */
  function FatSectors(clusters: nat, bits: nat, ss: nat): nat
    requires ss > 0
  {
    if bits == 12 then ((clusters * 3 + 1) / 2 + ss - 1) / ss
    else if bits == 16 then (clusters * 2 + ss - 1) / ss
    else (clusters * 4 + ss - 1) / ss
  }

  /** A FAT is far smaller than the clusters it describes. */
  lemma FatIsSmall(clusters: nat, bits: nat, ss: nat)
    requires ValidSectorSize(ss) && (bits == 12 || bits == 16 || bits == 32)
    ensures 128 * FatSectors(clusters, bits, ss) <= clusters + 127
    ensures clusters <= MAX_CLUSTERS ==> FatSectors(clusters, bits, ss) <= 0x1F_FFE0
  {
    if ss == 512 { } else if ss == 1024 { } else if ss == 2048 { } else { }
  }

  /** Both FATs and the root directory fit in what is left for clusters. */
  lemma FatsFit(left: nat, c: nat, cs: nat, bits: nat, ss: nat)
    requires ValidSectorSize(ss) && (bits == 12 || bits == 16 || bits == 32) && 1 <= cs <= 128
    requires c == Whole(left, cs) && left >= 3 && (bits == 32 ==> c >= 60000)
    ensures 2 * FatSectors(c, bits, ss) + (if bits == 32 then cs else 0) <= left
  {
    DivMod(left, cs);
    FatIsSmall(c, bits, ss);
    MulMono(1, cs, c);
    hide FatSectors;
  }

  /** The clusters for which the type of the FAT is chosen. */
  function FirstCount(n: nat, ss: nat, cs: nat): nat
    requires ss > 0 && cs > 0
  {
    if n >= Root(ss) + 2 then Whole(n - Root(ss) - 2, cs) else 0
  }

  function TypeOf(clusters: nat): nat {
    if clusters >= 65525 then 32 else if clusters >= 4085 then 16 else 12
  }

  /** What reserved sectors and root directory leave. */
  function LeftAfter(n: nat, ss: nat, sizeFat: nat, reserved: nat): int
    requires ss > 0
  {
    n - reserved - if sizeFat == 32 then 0 else Root(ss)
  }

  predicate Aligned(ss: nat, reserved: nat, fatLength: nat) {
    (reserved * ss + fatLength * 2 * ss) % TC_MAX_VOLUME_SECTOR_SIZE == 0
  }

  /** Type, reserved sectors and length of the FATs. */
  predicate Placed(n: nat, ss: nat, cs: nat, sizeFat: nat, reserved: nat, fatLength: nat)
    requires ss > 0 && cs > 0
  {
    // The type depends on how many clusters there would be with two reserved sectors.
    && sizeFat == TypeOf(FirstCount(n, ss, cs))
    && (sizeFat != 32 ==> reserved == 2)
    && (sizeFat == 32 && ss != TC_SECTOR_SIZE_LEGACY ==> reserved == 32)
    // The data area is aligned.
    && (sizeFat == 32 && ss == TC_SECTOR_SIZE_LEGACY ==> 32 <= reserved <= 41 && Aligned(ss, reserved, fatLength))
    // The FATs have entries for all clusters there would be without FATs.
    && LeftAfter(n, ss, sizeFat, reserved) >= 0
    && fatLength == FatSectors(Whole(LeftAfter(n, ss, sizeFat, reserved), cs), sizeFat, ss)
    // Everything has its place on the volume.
    && 2 * fatLength + (if sizeFat == 32 then cs else 0) <= LeftAfter(n, ss, sizeFat, reserved)
  }

  /** The clusters that the sectors after the FATs really make. */
  function TrueCount(left: nat, fatLength: nat, cs: nat): nat
    requires cs > 0
  {
    if 2 * fatLength <= left then Whole(left - 2 * fatLength, cs) else 0
  }

  function OneTooMany(left: nat, fatLength: nat, cs: nat): nat
    requires cs > 0
  {
    if left % cs < (2 * fatLength) % cs then 1 else 0
  }

  /** (fatsecs * sector_size) / (cluster_size * sector_size) */
  method CountClusters(fatsecs: nat, ss: nat, cs: nat) returns (count: nat)
    requires ss > 0 && cs > 0
    ensures count == Whole(fatsecs, cs)
  {
    SameQuotient(fatsecs, ss, cs);
    count := (fatsecs * ss) / (cs * ss);
  }

  /** GetFatParams.  The volume has the least size for FAT or more, and the number of sectors fits 32 bits. */
  method GetFatParams(ft: FatParams)
    requires ValidSectorSize(ft.sector_size) && 0 <= ft.num_sectors < TWO_TO_THE_32
    requires VolumeSize(ft.num_sectors, ft.sector_size) >= TC_MIN_FAT_FS_SIZE && 0 <= ft.cluster_size <= 128
    requires ft.cluster_size > 0 ==> Whole(ft.num_sectors, ft.cluster_size) <= MAX_CLUSTERS
    modifies ft
    ensures ft.num_sectors == old(ft.num_sectors) && ft.sector_size == old(ft.sector_size)
    ensures ft.fats == 2 && ft.media == 0xf8 && ft.hidden == 0 && ft.heads == 1 && ft.secs_track == 1 && ft.dir_entries == 512
    ensures 1 <= ft.cluster_size <= 128
    ensures ft.cluster_size == ClusterSize(old(ft.num_sectors), old(ft.sector_size), old(ft.cluster_size))
    ensures ft.reserved >= 0 && ft.fat_length >= 0 && ft.size_fat >= 0
    ensures Placed(ft.num_sectors, ft.sector_size, ft.cluster_size, ft.size_fat, ft.reserved, ft.fat_length)
    ensures ft.size_root_dir == if ft.size_fat == 32 then ft.cluster_size * ft.sector_size else 512 * 32
    ensures var left := LeftAfter(ft.num_sectors, ft.sector_size, ft.size_fat, ft.reserved);
            left >= 0 && ft.cluster_count == TrueCount(left, ft.fat_length, ft.cluster_size) + OneTooMany(left, ft.fat_length, ft.cluster_size)
    ensures if ft.num_sectors >= 65536 || ft.size_fat == 32 then ft.sectors == 0 && ft.total_sect == ft.num_sectors
            else ft.sectors == ft.num_sectors && ft.total_sect == 0
  {
    hide Root; hide FatSectors; hide Aligned; hide DefaultClusterBytes; hide ClusterSize; hide Whole; hide OneTooMany; hide TrueCount; hide Placed; hide FirstCount; hide VolumeSize;
    ghost var n: nat, ss: nat := ft.num_sectors, ft.sector_size;
    SetConstants(ft);
    SmallestVolume(n, ss);
    LayOut(ft, n, ss, ft.cluster_size);
    SetSectors(ft);
  }

  /** Cluster size and geometry. */
  method SetConstants(ft: FatParams)
    requires ValidSectorSize(ft.sector_size) && 0 <= ft.num_sectors < TWO_TO_THE_32 && 0 <= ft.cluster_size <= 128
    requires ft.cluster_size > 0 ==> Whole(ft.num_sectors, ft.cluster_size) <= MAX_CLUSTERS
    modifies ft
    ensures ft.num_sectors == old(ft.num_sectors) && ft.sector_size == old(ft.sector_size)
    ensures ft.fats == 2 && ft.media == 0xf8 && ft.hidden == 0 && ft.heads == 1 && ft.secs_track == 1 && ft.dir_entries == 512
    ensures ft.size_root_dir == 512 * 32 && 1 <= ft.cluster_size <= 128 && Whole(ft.num_sectors, ft.cluster_size) <= MAX_CLUSTERS
    ensures ft.cluster_size == ClusterSize(old(ft.num_sectors), old(ft.sector_size), old(ft.cluster_size))
  {
    hide Whole; hide VolumeSize; hide ClusterSize;
    ft.cluster_size := ChooseClusterSize(ft.num_sectors, ft.sector_size, ft.cluster_size);
    ft.secs_track := 1;
    ft.heads := 1;
    ft.dir_entries := 512;
    ft.fats := 2;
    ft.media := 0xf8;
    ft.hidden := 0;
    ft.size_root_dir := ft.dir_entries * 32;
  }

  /** Type, reserved sectors, FATs and clusters. */
  method LayOut(ft: FatParams, ghost n: nat, ghost ss: nat, ghost cs: nat)
    requires ValidSectorSize(ss) && 1 <= cs <= 128 && ft.num_sectors == n && ft.sector_size == ss && ft.cluster_size == cs && ft.fats == 2
    requires ft.size_root_dir == 512 * 32 && (512 * 32 + ss - 1) / ss == Root(ss) && n >= Root(ss) + 5 && Whole(n, cs) <= MAX_CLUSTERS
    modifies ft`size_fat, ft`reserved, ft`size_root_dir, ft`cluster_count, ft`fat_length
    ensures ft.reserved >= 0 && ft.fat_length >= 0 && ft.size_fat >= 0 && Placed(n, ss, cs, ft.size_fat, ft.reserved, ft.fat_length)
    ensures ft.size_root_dir == if ft.size_fat == 32 then cs * ss else 512 * 32
    ensures var left := LeftAfter(n, ss, ft.size_fat, ft.reserved);
            left >= 0 && ft.cluster_count == TrueCount(left, ft.fat_length, cs) + OneTooMany(left, ft.fat_length, cs)
  {
    hide Root; hide FatSectors; hide Aligned; hide Whole; hide OneTooMany; hide TrueCount; hide Placed; hide FirstCount;
    ShortFat(ft, n, ss, cs);
    FirstCountIs(n, ss, cs);
    ghost var left: nat := n - Root(ss) - 2;
    if ft.cluster_count >= 65525 { // FAT32
      AlignFat32(ft, n, ss, cs, left);
      left := n - ft.reserved;
    }
    FatsFit(left, ft.cluster_count, cs, ft.size_fat, ss);
    PlacedIs(n, ss, cs, ft.size_fat, ft.reserved, ft.fat_length);
    SubtractFats(ft, left, cs);
  }

  /** cluster_count -= fat_length * fats / cluster_size */
  method SubtractFats(ft: FatParams, ghost left: nat, ghost cs: nat)
    requires cs > 0 && ft.cluster_size == cs && ft.fats == 2 && ft.fat_length >= 0 && 2 * ft.fat_length <= left
    requires ft.cluster_count == Whole(left, cs)
    modifies ft`cluster_count
    ensures ft.cluster_count == TrueCount(left, ft.fat_length, cs) + OneTooMany(left, ft.fat_length, cs)
  {
    hide Whole; hide TrueCount; hide OneTooMany;
    Rounded(left, ft.fat_length, cs);
    ft.cluster_count := ft.cluster_count - ft.fat_length * ft.fats / ft.cluster_size;
  }

  method SetSectors(ft: FatParams)
    modifies ft`sectors, ft`total_sect
    ensures if ft.num_sectors >= 65536 || ft.size_fat == 32 then ft.sectors == 0 && ft.total_sect == ft.num_sectors
            else ft.sectors == ft.num_sectors && ft.total_sect == 0
  {
    if ft.num_sectors >= 65536 || ft.size_fat == 32 {
      ft.sectors := 0;
      ft.total_sect := ft.num_sectors;
    } else {
      ft.sectors := ft.num_sectors;
      ft.total_sect := 0;
    }
  }

  /** FAT12, and FAT16 where it has too many clusters. */
  method ShortFat(ft: FatParams, ghost n: nat, ghost ss: nat, ghost cs: nat)
    requires ss > 0 && cs > 0 && ft.num_sectors == n && ft.sector_size == ss && ft.cluster_size == cs
    requires ft.size_root_dir == 512 * 32 && (512 * 32 + ss - 1) / ss == Root(ss) && n >= Root(ss) + 5
    modifies ft`size_fat, ft`reserved, ft`cluster_count, ft`fat_length
    ensures ft.reserved == 2 && ft.cluster_count == FirstCount(n, ss, cs)
    ensures ft.size_fat == if ft.cluster_count >= 4085 then 16 else 12
    ensures ft.fat_length == FatSectors(ft.cluster_count, ft.size_fat, ss)
  {
    hide Root; hide FatSectors; hide Whole;
    ft.size_fat := 12;
    ft.reserved := 2;
    var fatsecs := ft.num_sectors - (ft.size_root_dir + ft.sector_size - 1) / ft.sector_size - ft.reserved;
    ft.cluster_count := CountClusters(fatsecs, ft.sector_size, ft.cluster_size);
    ft.fat_length := FatSectors(ft.cluster_count, 12, ft.sector_size);
    if ft.cluster_count >= 4085 { // FAT16
      ft.size_fat := 16;
      ft.reserved := 2;
      fatsecs := ft.num_sectors - (ft.size_root_dir + ft.sector_size - 1) / ft.sector_size - ft.reserved;
      ft.cluster_count := CountClusters(fatsecs, ft.sector_size, ft.cluster_size);
      ft.fat_length := FatSectors(ft.cluster_count, 16, ft.sector_size);
    }
  }

  lemma FirstCountIs(n: nat, ss: nat, cs: nat)
    requires ss > 0 && cs > 0 && n >= Root(ss) + 2
    ensures FirstCount(n, ss, cs) == Whole(n - Root(ss) - 2, cs)
  {
  }

  lemma PlacedIs(n: nat, ss: nat, cs: nat, sizeFat: nat, reserved: nat, fatLength: nat)
    requires ss > 0 && cs > 0 && sizeFat == TypeOf(FirstCount(n, ss, cs)) && (sizeFat != 32 ==> reserved == 2)
    requires sizeFat == 32 ==> if ss == TC_SECTOR_SIZE_LEGACY then 32 <= reserved <= 41 && Aligned(ss, reserved, fatLength) else reserved == 32
    requires LeftAfter(n, ss, sizeFat, reserved) >= 0
    requires fatLength == FatSectors(Whole(LeftAfter(n, ss, sizeFat, reserved), cs), sizeFat, ss)
    requires 2 * fatLength + (if sizeFat == 32 then cs else 0) <= LeftAfter(n, ss, sizeFat, reserved)
    ensures Placed(n, ss, cs, sizeFat, reserved, fatLength)
  {
    hide Whole; hide FatSectors; hide FirstCount; hide Root;
  }

  lemma Rounded(left: nat, f: nat, cs: nat)
    requires cs > 0 && 2 * f <= left
    ensures Whole(left, cs) - f * 2 / cs == TrueCount(left, f, cs) + OneTooMany(left, f, cs)
  {
    RoundedDifference(left, 2 * f, cs);
  }

  lemma AlignedIs(r: nat, f: nat)
    ensures Aligned(512, r, f) <==> (r + 2 * f) % 8 == 0
  {
    var s := r + 2 * f;
    DivMod(s, 8);
    assert r * 512 + f * 2 * 512 == (s / 8) * 4096 + (s % 8) * 512;
    DivModUnique(s / 8, (s % 8) * 512, 4096);
  }

  /** Losing 40 sectors leaves nearly as many clusters. */
  lemma ManyClusters(left: nat, n: nat, r: nat, cs: nat)
    requires 1 <= cs <= 128 && Whole(left, cs) >= 65525 && left <= n && r <= 41
    ensures n > r + 100 && Whole(n - r, cs) >= 60000
  {
    DivMod(left, cs);
    MulMono(65525, left / cs, cs);
    MulDist(60000, 5525, cs);
    MulMono(1, cs, 5525);
    var x := n - r;
    MonoDiv(60000 * cs, x, cs);
    MultipleOf(60000, cs);
  }

  /** The loop for FAT32.  It ends after at most ten passes; sizes in bytes stay below 2^31. */
  method AlignFat32(ft: FatParams, ghost n: nat, ghost ss: nat, ghost cs: nat, ghost first: nat)
    requires ValidSectorSize(ss) && 1 <= cs <= 128 && Whole(n, cs) <= MAX_CLUSTERS && first <= n && Whole(first, cs) >= 65525
    requires ft.num_sectors == n && ft.sector_size == ss && ft.cluster_size == cs && ft.fats == 2
    modifies ft`size_fat, ft`reserved, ft`size_root_dir, ft`cluster_count, ft`fat_length
    ensures ft.size_fat == 32 && 32 <= ft.reserved <= 41 && (ss != TC_SECTOR_SIZE_LEGACY ==> ft.reserved == 32)
    ensures ft.size_root_dir == cs * ss && n >= ft.reserved + 3
    ensures ft.cluster_count == Whole(n - ft.reserved, cs) >= 60000 && ft.fat_length == FatSectors(ft.cluster_count, 32, ss)
    ensures ss == TC_SECTOR_SIZE_LEGACY ==> Aligned(ss, ft.reserved, ft.fat_length)
  {
    hide DataStart; hide Walking; hide FatSectors; hide Aligned; hide Whole;
    ft.size_fat := 32;
    ft.reserved := 32 - 1;
    ghost var down: nat := 0;
    var again := true;
    while again
      invariant ft.size_fat == 32 && 31 <= ft.reserved <= 41 && (again ==> ft.reserved < 41) && (!again ==> 32 <= ft.reserved)
      invariant ss != TC_SECTOR_SIZE_LEGACY ==> ft.reserved == if again then 31 else 32
      invariant again && ft.reserved > 31 ==> Walking(n, cs, 32, ft.reserved - 32, down)
      invariant !again ==> ft.size_root_dir == cs * ss && n >= ft.reserved + 3
      invariant !again ==> ft.cluster_count == Whole(n - ft.reserved, cs) >= 60000 && ft.fat_length == FatSectors(ft.cluster_count, 32, ss)
      invariant !again && ss == TC_SECTOR_SIZE_LEGACY ==> Aligned(ss, ft.reserved, ft.fat_length)
      decreases 42 - ft.reserved
    {
      ft.reserved := ft.reserved + 1;
      ManyClusters(first, n, ft.reserved, cs);
      var fatsecs := ft.num_sectors - ft.reserved;
      ft.size_root_dir := ft.cluster_size * ft.sector_size;
      ft.cluster_count := CountClusters(fatsecs, ft.sector_size, ft.cluster_size);
      ft.fat_length := FatSectors(ft.cluster_count, 32, ft.sector_size);
      SizesFit(n, cs, ss, ft.reserved, ft.cluster_count, ft.fat_length);
      again := ft.sector_size == TC_SECTOR_SIZE_LEGACY && !Aligned(ft.sector_size, ft.reserved, ft.fat_length);
      if again { down := StillWalking(n, cs, ft.reserved, down); }
    }
  }

  lemma SizesFit(n: nat, cs: nat, ss: nat, reserved: nat, clusters: nat, fatLength: nat)
    requires ValidSectorSize(ss) && cs > 0 && Whole(n, cs) <= MAX_CLUSTERS && reserved <= n && reserved <= 41
    requires clusters == Whole(n - reserved, cs) && fatLength == FatSectors(clusters, 32, ss)
    ensures clusters * 4 + ss - 1 < TWO_TO_THE_31
    ensures ss == 512 ==> reserved * ss + fatLength * 2 * ss < TWO_TO_THE_31
  {
    MonoDiv(n - reserved, n, cs);
    FatIsSmall(clusters, 32, ss);
  }

  lemma StartIs(n: nat, cs: nat, reserved: nat)
    requires cs > 0 && reserved <= n
    ensures DataStart(n, cs, reserved) == reserved + 2 * FatSectors(Whole(n - reserved, cs), 32, 512)
  {
    hide Whole;
  }

  lemma StillWalking(n: nat, cs: nat, reserved: nat, down: nat) returns (down': nat)
    requires cs > 0 && 32 <= reserved <= 41 && n > reserved + 3
    requires reserved > 32 ==> Walking(n, cs, 32, reserved - 33, down)
    requires !Aligned(512, reserved, FatSectors(Whole(n - reserved, cs), 32, 512))
    ensures reserved < 41 && Walking(n, cs, 32, reserved - 32, down')
  {
    hide Aligned; hide FatSectors; hide DataStart; hide Walking; hide Whole;
    StartIs(n, cs, reserved);
    AlignedIs(reserved, FatSectors(Whole(n - reserved, cs), 32, 512));
    if reserved == 32 {
      down' := 0;
      WalkingStarts(n, cs, 32);
    } else {
      assert 32 + (reserved - 33) + 1 == reserved;
      down' := WalkingGoesOn(n, cs, 32, reserved - 33, down);
    }
  }

  /** The last correction of cluster_count is not exact: here FAT16 claims one cluster too many. */
  lemma CountCanBeTooHigh()
    ensures var n, ss, cs, f := 40998, 512, 4, 41;
            && Placed(n, ss, cs, 16, 2, f)
            && OneTooMany(LeftAfter(n, ss, 16, 2), f, cs) == 1
            && TrueCount(LeftAfter(n, ss, 16, 2), f, cs) == 10220
  {
    assert Whole(40964, 4) == 10241;
    assert FirstCount(40998, 512, 4) == 10241;
  }
}
