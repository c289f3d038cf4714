/** The arithmetic of the FAT32 layout loop of Common/Fat.c. */
module FatLayout {
  import opened Arithmetic

  /** Whole clusters in so many sectors. */
  function Whole(sectors: nat, clusterSize: nat): nat
    requires clusterSize > 0
  {
    sectors / clusterSize
  }

  /** Clusters there would be if the FATs took no room. */
  function Clusters(sectors: nat, clusterSize: nat, reserved: nat): nat
    requires clusterSize > 0
  {
    if reserved <= sectors then Whole(sectors - reserved, clusterSize) else 0
  }

  /** Sectors of one FAT with 32-bit entries and 512-byte sectors. */
  function FatLength(clusters: nat): nat { (clusters * 4 + 511) / 512 }

  /** Where the data area begins when this many sectors are reserved. */
  function DataStart(sectors: nat, clusterSize: nat, reserved: nat): nat
    requires clusterSize > 0
  {
    reserved + 2 * FatLength(Clusters(sectors, clusterSize, reserved))
  }

  lemma FatLengthIs(c: nat)
    ensures 128 * FatLength(c) < c + 128 && c <= 128 * FatLength(c)
  {
  }

  /** One more reserved sector takes away at most one cluster. */
  lemma OneClusterLess(sectors: nat, k: nat, r: nat)
    requires k > 0 && r < sectors
    ensures Clusters(sectors, k, r + 1) <= Clusters(sectors, k, r) <= Clusters(sectors, k, r + 1) + 1
  {
    DivStep(sectors - r - 1, k);
  }

  lemma DivStep(x: nat, k: nat)
    requires k > 0
    ensures x / k <= (x + 1) / k <= x / k + 1
  {
    var q, r := x / k, x % k;
    DivMod(x, k);
    if r + 1 < k {
      DivModUnique(q, r + 1, k);
    } else {
      MulDist(q, 1, k);
      DivModUnique(q + 1, 0, k);
    }
  }

  /** One more reserved sector moves the data area by one sector, up or down. */
  lemma StepByOne(sectors: nat, k: nat, r: nat)
    requires k > 0 && r < sectors
    ensures var f, f' := FatLength(Clusters(sectors, k, r)), FatLength(Clusters(sectors, k, r + 1));
            && (f' == f || f' == f - 1)
            && DataStart(sectors, k, r + 1) == DataStart(sectors, k, r) + (if f' == f then 1 else -1)
            && (f' == f - 1 ==> Clusters(sectors, k, r + 1) == 128 * f')
  {
    OneClusterLess(sectors, k, r);
    FatLengthIs(Clusters(sectors, k, r));
    FatLengthIs(Clusters(sectors, k, r + 1));
  }

  lemma {:induction false} ClustersFall(sectors: nat, k: nat, r: nat, n: nat)
    requires k > 0 && r + n <= sectors
    ensures Clusters(sectors, k, r + n) <= Clusters(sectors, k, r) <= Clusters(sectors, k, r + n) + n
    decreases n
  {
    if n > 0 {
      ClustersFall(sectors, k, r, n - 1);
      OneClusterLess(sectors, k, r + n - 1);
    }
  }

  /** After a step down, at least 127 steps up follow. */
  lemma StepsUpAfterDown(sectors: nat, k: nat, r: nat, n: nat)
    requires k > 0 && r + 1 + n < sectors && n < 127
    requires FatLength(Clusters(sectors, k, r + 1)) < FatLength(Clusters(sectors, k, r))
    ensures FatLength(Clusters(sectors, k, r + 1 + n)) == FatLength(Clusters(sectors, k, r + 1))
  {
    StepByOne(sectors, k, r);
    ClustersFall(sectors, k, r + 1, n);
    var c, c' := Clusters(sectors, k, r + 1), Clusters(sectors, k, r + 1 + n);
    FatLengthIs(c);
    FatLengthIs(c');
    hide FatLength; hide Clusters;
    var f, f' := FatLength(c), FatLength(c');
    assert c == 128 * f && c - n <= c' <= c;
  }

  /** The data area after n more reserved sectors, if it was never aligned on eight sectors so far: all steps
      went up, or all but one, the one numbered `down`.  Either way, n is at most eight. */
  predicate Walking(sectors: nat, k: nat, r: nat, n: nat, down: nat)
    requires k > 0
  {
    var start, at := DataStart(sectors, k, r), DataStart(sectors, k, r + n);
    && start % 8 != 0 && at % 8 != 0 && down <= n
    && (down == 0 ==> at == start + n && start % 8 + n < 8)
    && (down > 0 ==>
          && FatLength(Clusters(sectors, k, r + down)) < FatLength(Clusters(sectors, k, r + down - 1))
          && at == start + n - 2 && start % 8 + n < 10)
  }

  lemma WalkingStarts(sectors: nat, k: nat, r: nat)
    requires k > 0 && DataStart(sectors, k, r) % 8 != 0
    ensures Walking(sectors, k, r, 0, 0)
  {
    assert r + 0 == r;
  }

  lemma WalkingGoesOn(sectors: nat, k: nat, r: nat, n: nat, down: nat) returns (down': nat)
    requires k > 0 && r + n + 1 < sectors && Walking(sectors, k, r, n, down)
    requires DataStart(sectors, k, r + n + 1) % 8 != 0
    ensures n < 8 && Walking(sectors, k, r, n + 1, down')
  {
    hide DataStart; hide FatLength; hide Clusters;
    var start, at, next := DataStart(sectors, k, r), DataStart(sectors, k, r + n), DataStart(sectors, k, r + n + 1);
    assert r + (n + 1) == r + n + 1;
    StepByOne(sectors, k, r + n);
    down' := down;
    if down > 0 {
      OnlyUp(sectors, k, r, n, down);
      NoMultiple(start, n - 2 + 1);
    } else if next == at + 1 {
      NoMultiple(start, n + 1);
    } else {
      down' := n + 1;
    }
  }

  lemma OnlyUp(sectors: nat, k: nat, r: nat, n: nat, down: nat)
    requires k > 0 && r + n + 1 < sectors && 0 < down <= n < 10
    requires FatLength(Clusters(sectors, k, r + down)) < FatLength(Clusters(sectors, k, r + down - 1))
    ensures FatLength(Clusters(sectors, k, r + n + 1)) == FatLength(Clusters(sectors, k, r + n))
  {
    hide FatLength; hide Clusters;
    var d := r + down - 1;
    assert d + 1 == r + down && d + 1 + (n - down) == r + n && d + 1 + (n + 1 - down) == r + n + 1;
    StepsUpAfterDown(sectors, k, d, n - down);
    StepsUpAfterDown(sectors, k, d, n + 1 - down);
  }

  /** A number short of the next multiple of eight stays so if one more is not a multiple. */
  lemma NoMultiple(s: nat, m: int)
    requires s % 8 != 0 && s % 8 + m <= 8 && (s + m) % 8 != 0
    ensures s % 8 + m < 8
  {
    assert s == 8 * (s / 8) + s % 8;
  }
}
