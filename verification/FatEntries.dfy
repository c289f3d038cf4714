/** Whether the layout of Common/Fat.c fits its own final number of clusters: the entries of a FAT, and the type. */
module FatEntries {
  import opened Arithmetic
  import opened FatLayout
  import opened Fat

  /** cluster_count when GetFatParams returns. */
  function FinalCount(left: nat, fatLength: nat, cs: nat): nat
    requires cs > 0
  {
    TrueCount(left, fatLength, cs) + OneTooMany(left, fatLength, cs)
  }

  /** A FAT has entries for its clusters, which are numbered from 2 on. */
  predicate Covers(bits: nat, clusters: nat, fatLength: nat, ss: nat) { bits * (clusters + 2) <= 8 * ss * fatLength }

  lemma RoundedUp(x: nat, d: nat, f: nat)
    requires d > 0
    ensures (x + d - 1) / d <= f <==> x <= f * d
  {
    var q, r := (x + d - 1) / d, (x + d - 1) % d;
    DivMod(x + d - 1, d);
    if q <= f { MulMono(q, f, d); } else { MulMono(f + 1, q, d); MulDist(f, 1, d); }
  }

  /** The length of a FAT is the least number of sectors that have room for entries of so many bits. */
  lemma LeastLength(clusters: nat, bits: nat, ss: nat, f: nat)
    requires ss > 0 && (bits == 12 || bits == 16 || bits == 32)
    ensures FatSectors(clusters, bits, ss) <= f <==> bits * clusters <= 8 * (f * ss)
  {
    RoundedUp((clusters * 3 + 1) / 2, ss, f);
    RoundedUp(clusters * 2, ss, f);
    RoundedUp(clusters * 4, ss, f);
  }

  /** How many entries a sector of a FAT has. */
  function PerSector(bits: nat, ss: nat): nat
    requires bits > 0
  {
    8 * ss / bits
  }

  lemma PerSectorIs(bits: nat, ss: nat)
    requires ValidSectorSize(ss) && (bits == 16 || bits == 32)
    ensures 8 * ss == PerSector(bits, ss) * bits && PerSector(bits, ss) >= 128
  {
    if ss == 512 { } else if ss == 1024 { } else if ss == 2048 { } else { }
  }

  /** The length of a FAT is the least one with entries for so many clusters, not counting the first two entries. */
  lemma LengthIs(c: nat, bits: nat, ss: nat)
    requires ValidSectorSize(ss) && (bits == 16 || bits == 32)
    ensures var e, f := PerSector(bits, ss), FatSectors(c, bits, ss);
            f * e == c + (if c % e == 0 then 0 else e - c % e)
  {
    var b, e := bits / 8, PerSector(bits, ss);
    PerSectorIs(bits, ss);
    assert ss == e * b;
    assert FatSectors(c, bits, ss) == (c * b + ss - 1) / ss;
    hide FatSectors; hide PerSector;
    var q, r := c / e, c % e;
    DivMod(c, e);
    MulDist(q * e, r, b);
    MulAssoc(q, e, b);
    if r == 0 {
      DivModUnique(q, ss - 1, ss);
    } else {
      MulMono(1, r, b);
      MulMono(r + 1, e, b);
      MulDist(r, 1, b);
      MulDist(q, 1, ss);
      DivModUnique(q + 1, r * b - 1, ss);
      MulDist(q, 1, e);
    }
  }

  /** What a FAT has room for beyond its clusters, in bits. */
  function SpareBits(c: nat, bits: nat, ss: nat): int
    requires ss > 0
  {
    8 * ss * FatSectors(c, bits, ss) - bits * c
  }

  lemma SpareIsNat(c: nat, bits: nat, ss: nat)
    requires ValidSectorSize(ss) && (bits == 12 || bits == 16 || bits == 32)
    ensures SpareBits(c, bits, ss) >= 0
  {
    if ss == 512 { } else if ss == 1024 { } else if ss == 2048 { } else { }
  }

  /** Main result, for all three types: the FAT has too few entries exactly if it has no room for two more and nothing is
      subtracted from the number of clusters, or none for one more and at most one is subtracted. */
  lemma CoversUnless(left: nat, cs: nat, bits: nat, ss: nat, f: nat)
    requires ValidSectorSize(ss) && (bits == 12 || bits == 16 || bits == 32) && cs > 0
    requires f == FatSectors(Whole(left, cs), bits, ss) && 2 * f <= left
    ensures var spare := SpareBits(Whole(left, cs), bits, ss);
            Covers(bits, FinalCount(left, f, cs), f, ss) <==> !(spare < 2 * bits && 2 * f < cs) && !(spare < bits && f < cs)
  {
    hide FatSectors; hide Whole; hide TrueCount; hide OneTooMany;
    var c, d := Whole(left, cs), 2 * f / cs;
    SpareIsNat(c, bits, ss);
    Rounded(left, f, cs);
    Subtracted(f, cs);
    assert FinalCount(left, f, cs) == c - d;
    MulDist(c - d, d, bits);
    if d >= 2 { MulMono(2, d, bits); }
  }

  /** With FAT16 and FAT32: if clusters are large and the entries end at, or one before, the end of a sector. */
  lemma CoversByRemainder(left: nat, cs: nat, bits: nat, ss: nat, f: nat)
    requires ValidSectorSize(ss) && (bits == 16 || bits == 32) && cs > 0
    requires f == FatSectors(Whole(left, cs), bits, ss) && 2 * f <= left
    ensures var e, c := PerSector(bits, ss), Whole(left, cs);
            Covers(bits, FinalCount(left, f, cs), f, ss) <==> !(c % e == 0 && f < cs) && !(c % e == e - 1 && 2 * f < cs)
  {
    hide FatSectors; hide Whole; hide TrueCount; hide OneTooMany; hide PerSector;
    var e, c := PerSector(bits, ss), Whole(left, cs);
    PerSectorIs(bits, ss);
    LengthIs(c, bits, ss);
    Rounded(left, f, cs);
    var d := 2 * f / cs;
    Subtracted(f, cs);
    var count := FinalCount(left, f, cs);
    assert count == c - d;
    CoversIs(bits, e, count, f, ss);
  }

  lemma CoversIs(bits: nat, e: nat, count: nat, f: nat, ss: nat)
    requires bits > 0 && 8 * ss == e * bits
    ensures Covers(bits, count, f, ss) <==> count + 2 <= f * e
  {
    assert 8 * ss * f == bits * (f * e) by {
      MulAssoc(e, bits, f);
      MulAssoc(bits, f, e);
    }
    if count + 2 <= f * e { MulMono(count + 2, f * e, bits); } else { MulMono(f * e + 1, count + 2, bits); }
  }

  /** How much is subtracted from cluster_count. */
  lemma Subtracted(f: nat, cs: nat)
    requires cs > 0
    ensures (2 * f / cs == 0 <==> 2 * f < cs) && (2 * f / cs >= 2 <==> f >= cs)
  {
    var d := 2 * f / cs;
    DivMod(2 * f, cs);
    if d >= 2 { MulMono(2, d, cs); }
    if d == 1 { }
  }

  /** A volume of 4 MB with clusters of 4 KB and FAT12: the last two clusters have no entries in the FAT. */
  lemma TooFewShortEntries()
    ensures var n, ss, cs, f := 8226, 512, 8, 3;
            && ClusterSize(n, ss, cs) == cs && Placed(n, ss, cs, 12, 2, f)
            && FinalCount(LeftAfter(n, ss, 12, 2), f, cs) == 1024 && !Covers(12, 1024, f, ss)
  {
  }

  /** A volume of 256 MB with clusters of 64 KB: two clusters have no entries in the FAT. */
  lemma TooFewEntries()
    ensures var n, ss, cs, f := 524322, 512, 128, 16;
            && ClusterSize(n, ss, cs) == cs && Placed(n, ss, cs, 16, 2, f)
            && FinalCount(LeftAfter(n, ss, 16, 2), f, cs) == 4096 && !Covers(16, 4096, f, ss)
  {
  }

  /** Main result: the type that was chosen first is right for the final count exactly if the count does not fall below
      the least one of the type. */
  lemma TypeIsRight(n: nat, ss: nat, cs: nat, sizeFat: nat, reserved: nat, f: nat)
    requires ValidSectorSize(ss) && cs > 0 && Placed(n, ss, cs, sizeFat, reserved, f)
    ensures var left := LeftAfter(n, ss, sizeFat, reserved);
            && left >= 0
            && (TypeOf(FinalCount(left, f, cs)) == sizeFat <==>
                sizeFat == 12 || Whole(left, cs) >= (if sizeFat == 16 then 4085 else 65525) + 2 * f / cs)
  {
    hide FatSectors; hide Whole; hide TrueCount; hide OneTooMany; hide Root;
    var left := LeftAfter(n, ss, sizeFat, reserved);
    Rounded(left, f, cs);
    FirstLeft(n, ss, cs);
  }

  lemma FirstLeft(n: nat, ss: nat, cs: nat)
    requires ss > 0 && cs > 0
    ensures FirstCount(n, ss, cs) == if n >= Root(ss) + 2 then Whole(n - Root(ss) - 2, cs) else 0
  {
  }

  /** A volume of 4119 sectors gets FAT16 although only 4053 clusters remain, which calls for FAT12. */
  lemma TypeCanBeWrong()
    ensures var n, ss, cs, f := 4119, 512, 1, 16;
            && ClusterSize(n, ss, cs) == cs && Placed(n, ss, cs, 16, 2, f)
            && FinalCount(LeftAfter(n, ss, 16, 2), f, cs) == 4053 && TypeOf(4053) == 12
  {
  }
}
