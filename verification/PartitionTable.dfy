/**
 Partition layout of internal/disk: a table passed by value whose slice of
 partitions and file systems is shared with the caller, and uint64 arithmetic.
 */
module Layout {
  import opened Wrappers

  const TWO64: int := 0x1_0000_0000_0000_0000
  const SECTOR: int := 512
  const FIRST_SECTOR: U64 := 2048
  const TAIL: int := 100

  type U64 = x: int | 0 <= x < TWO64

  /** uint64 addition and subtraction, which wrap around. */
  function Add(a: U64, b: U64): U64 { if a + b < TWO64 then a + b else a + b - TWO64 }
  function Sub(a: U64, b: U64): U64 { if a >= b then a - b else a - b + TWO64 }

  /** What the layout looks at in a partition. Starts and sizes are sectors; not all are mounted. */
  datatype Extent = Extent(start: U64, size: U64, mount: Option<string>) {
    predicate Root() { mount == Some("/") }
  }

  datatype Mount = Mount(mountpoint: string, minSize: U64)

  predicate RootAt(ext: seq<Extent>, r: int) {
    0 <= r < |ext| && forall i :: 0 <= i < |ext| ==> (ext[i].Root() <==> i == r)
  }

  ghost predicate OneRoot(ext: seq<Extent>) {
    exists r :: RootAt(ext, r)
  }

  // ----- what the code computes -----

  /** `getPartitionTableSize`, on the first `n` partitions. */
  function TableSize(ext: seq<Extent>, n: nat): U64
    requires n <= |ext|
  {
    if n == 0 then 0 else Add(TableSize(ext, n - 1), ext[n - 1].size)
  }

  /** The running start before partition `n`; the root partition takes no room in it. */
  function StartAt(ext: seq<Extent>, n: nat): U64
    requires n <= |ext|
  {
    if n == 0 then FIRST_SECTOR
    else if ext[n - 1].Root() then StartAt(ext, n - 1)
    else Add(StartAt(ext, n - 1), ext[n - 1].size)
  }

  /** All starts set and the root sized from what is left of an image of `limit` sectors. */
  function LaidOut(ext: seq<Extent>, limit: U64): (r: seq<Extent>)
    ensures |r| == |ext| && forall i :: 0 <= i < |r| ==> r[i].mount == ext[i].mount
  {
    var end := StartAt(ext, |ext|);
    seq(|ext|, i requires 0 <= i < |ext| =>
      if ext[i].Root() then ext[i].(start := end, size := Sub(Sub(limit, end), TAIL))
      else ext[i].(start := StartAt(ext, i)))
  }

  /** The partitions appended for the mount points other than the root. */
  function Custom(mounts: seq<Mount>): (r: seq<Extent>)
    ensures forall i :: 0 <= i < |r| ==> !r[i].Root()
  {
    if mounts == [] then []
    else
      var m := mounts[|mounts| - 1];
      Custom(mounts[..|mounts| - 1]) + if m.mountpoint != "/" then [Extent(0, m.minSize / SECTOR, Some(m.mountpoint))] else []
  }

  function FinalSize(ext: seq<Extent>, imageSize: U64): U64 {
    if imageSize < TableSize(ext, |ext|) then TableSize(ext, |ext|) else imageSize
  }

  /** `CreatePartitionTable` on extents: the new partitions and the table size. */
  function Create(base: seq<Extent>, mounts: seq<Mount>, imageSize: U64): (seq<Extent>, U64) {
    var ext := base + Custom(mounts);
    var size := FinalSize(ext, imageSize);
    (LaidOut(ext, size / SECTOR), size)
  }

  // ----- what it should compute -----

  /** Sectors of the first `n` partitions other than the root, without wrap-around. */
  function Sectors(ext: seq<Extent>, n: nat): nat
    requires n <= |ext|
  {
    if n == 0 then 0 else Sectors(ext, n - 1) + if ext[n - 1].Root() then 0 else ext[n - 1].size
  }

  /** Non-root partitions packed from sector 2048 in table order, then the root up to the tail. */
  ghost predicate Packed(ext: seq<Extent>, limit: U64) {
    forall i :: 0 <= i < |ext| ==> InPlace(ext, limit, i)
  }

  predicate InPlace(ext: seq<Extent>, limit: U64, i: int)
    requires 0 <= i < |ext|
  {
    if ext[i].Root()
    then ext[i].start == FIRST_SECTOR + Sectors(ext, |ext|) && ext[i].start + ext[i].size + TAIL == limit
    else ext[i].start == FIRST_SECTOR + Sectors(ext, i)
  }

  /** The image can hold the non-root partitions, the first 2048 sectors and the tail. */
  predicate Fits(ext: seq<Extent>, limit: U64) {
    limit >= FIRST_SECTOR + Sectors(ext, |ext|) + TAIL
  }

  lemma {:induction false} SectorsMonotone(ext: seq<Extent>, m: nat, n: nat)
    requires m <= n <= |ext|
    ensures Sectors(ext, m) <= Sectors(ext, n)
  {
    if m < n {
      SectorsMonotone(ext, m, n - 1);
    }
  }

  lemma {:induction false} NoWrap(ext: seq<Extent>, n: nat)
    requires n <= |ext| && FIRST_SECTOR + Sectors(ext, n) < TWO64
    ensures StartAt(ext, n) == FIRST_SECTOR + Sectors(ext, n)
  {
    if n > 0 {
      NoWrap(ext, n - 1);
    }
  }

  lemma {:induction false} SectorsFrame(ext: seq<Extent>, ext': seq<Extent>, n: nat)
    requires n <= |ext| && n <= |ext'|
    requires forall i :: 0 <= i < n ==> ext[i].Root() == ext'[i].Root() && (!ext[i].Root() ==> ext[i].size == ext'[i].size)
    ensures Sectors(ext, n) == Sectors(ext', n)
    ensures StartAt(ext, n) == StartAt(ext', n)
  {
    if n > 0 {
      SectorsFrame(ext, ext', n - 1);
    }
  }

  lemma {:induction false} LaidOutSectors(ext: seq<Extent>, limit: U64, n: nat)
    requires n <= |ext|
    ensures Sectors(LaidOut(ext, limit), n) == Sectors(ext, n)
    ensures StartAt(LaidOut(ext, limit), n) == StartAt(ext, n)
  {
    SectorsFrame(ext, LaidOut(ext, limit), n);
  }

  /** The layout is right, with no wrap-around anywhere, exactly when the image is large enough. */
  lemma {:induction false} PackedExactly(ext: seq<Extent>, limit: U64)
    requires OneRoot(ext)
    ensures Packed(LaidOut(ext, limit), limit) <==> Fits(ext, limit)
  {
    var r :| RootAt(ext, r);
    var out := LaidOut(ext, limit);
    LaidOutSectors(ext, limit, |ext|);
    assert out[r].Root() && (Packed(out, limit) ==> InPlace(out, limit, r));
    if Fits(ext, limit) {
      NoWrap(ext, |ext|);
      forall i | 0 <= i < |ext| ensures InPlace(out, limit, i) {
        LaidOutSectors(ext, limit, i);
        SectorsMonotone(ext, i, |ext|);
        NoWrap(ext, i);
      }
    }
  }

  /** Packed partitions are pairwise disjoint. */
  lemma {:induction false} PackedDisjoint(ext: seq<Extent>, limit: U64, i: int, j: int)
    requires Packed(ext, limit) && OneRoot(ext) && 0 <= i < j < |ext|
    ensures ext[i].start + ext[i].size <= ext[j].start || ext[j].start + ext[j].size <= ext[i].start
  {
    var r :| RootAt(ext, r);
    assert InPlace(ext, limit, i) && InPlace(ext, limit, j);
    SectorsMonotone(ext, i + 1, j);
    SectorsMonotone(ext, j + 1, |ext|);
    SectorsMonotone(ext, i + 1, |ext|);
  }

  /** The root lies behind all others, and every partition ends before the tail. */
  lemma {:induction false} PackedRootLast(ext: seq<Extent>, limit: U64, r: int, i: int)
    requires Packed(ext, limit) && RootAt(ext, r) && 0 <= i < |ext|
    ensures i != r ==> ext[i].start + ext[i].size <= ext[r].start
    ensures ext[i].start >= 2048 && ext[i].start + ext[i].size <= limit - 100
    ensures ext[r].start + ext[r].size == limit - 100
  {
    assert InPlace(ext, limit, r) && InPlace(ext, limit, i);
    if i != r {
      assert Sectors(ext, i + 1) == Sectors(ext, i) + ext[i].size;
      SectorsMonotone(ext, i + 1, |ext|);
    }
  }

  /** The root gets every sector the others and the tail leave. */
  lemma {:induction false} RootTakesRest(ext: seq<Extent>, limit: U64, r: int)
    requires Packed(ext, limit) && 0 <= r < |ext| && ext[r].Root()
    ensures ext[r].size == limit - TAIL - FIRST_SECTOR - Sectors(ext, |ext|)
  {
    assert InPlace(ext, limit, r);
  }

  /** Consecutive non-root partitions leave no gap. */
  lemma {:induction false} PackedContiguous(ext: seq<Extent>, limit: U64, i: int)
    requires Packed(ext, limit) && 0 <= i && i + 1 < |ext| && !ext[i].Root() && !ext[i + 1].Root()
    ensures ext[i].start + ext[i].size == ext[i + 1].start
  {
    assert InPlace(ext, limit, i) && InPlace(ext, limit, i + 1);
  }

  lemma {:induction false} CustomKeepsRoot(base: seq<Extent>, mounts: seq<Mount>)
    requires OneRoot(base)
    ensures OneRoot(base + Custom(mounts))
  {
    var r :| RootAt(base, r);
    assert RootAt(base + Custom(mounts), r);
  }

  /** The size bump never hurts: a large enough request always gives a right layout. */
  lemma {:induction false} CreatePacks(base: seq<Extent>, mounts: seq<Mount>, imageSize: U64)
    requires OneRoot(base) && Fits(base + Custom(mounts), imageSize / SECTOR)
    ensures var (ext, size) := Create(base, mounts, imageSize);
            Packed(ext, size / SECTOR) && OneRoot(ext) && size >= imageSize
  {
    var all := base + Custom(mounts);
    CustomKeepsRoot(base, mounts);
    var size := FinalSize(all, imageSize);
    PackedExactly(all, size / SECTOR);
    var r :| RootAt(all, r);
    assert RootAt(LaidOut(all, size / SECTOR), r);
  }

  /** The unit test's request (1024 bytes, a 2 GiB /usr) is bumped by sectors read as bytes, and wraps. */
  lemma {:induction false} SmallImageWraps()
    ensures var base := [Extent(0, 2048, None), Extent(0, 0, Some("/"))];
            var (ext, size) := Create(base, [Mount("/usr", 2147483648)], 1024);
            size == 4196352 && !Packed(ext, size / SECTOR)
  {
    var base := [Extent(0, 2048, None), Extent(0, 0, Some("/"))];
    var mounts := [Mount("/usr", 2147483648)];
    assert mounts[..0] == [];
    assert Custom(mounts) == Custom([]) + [Extent(0, 4194304, Some("/usr"))];
    var all := base + Custom(mounts);
    assert all == [Extent(0, 2048, None), Extent(0, 0, Some("/")), Extent(0, 4194304, Some("/usr"))];
    assert TableSize(all, 1) == 2048;
    assert TableSize(all, 2) == 2048;
    assert TableSize(all, 3) == 4196352;
    assert Sectors(all, 1) == 2048;
    assert Sectors(all, 2) == 2048;
    assert Sectors(all, 3) == 4196352;
    assert RootAt(all, 1);
    PackedExactly(all, 4196352 / SECTOR);
  }

  // ----- minimum sizes (internal/blueprint/customizations.go) -----

  function WrappedSum(mounts: seq<Mount>): U64 {
    if mounts == [] then 0 else Add(WrappedSum(mounts[..|mounts| - 1]), mounts[|mounts| - 1].minSize)
  }

  function Wrap(x: nat): U64 {
    x % TWO64
  }

  function RoundedUp(agg: U64): U64 {
    if agg % SECTOR != 0 then Wrap((agg / SECTOR + 1) * SECTOR) else agg
  }

  /** The loop of `GetFilesystemsMinSize`. */
  method FilesystemsMinSize(mounts: seq<Mount>) returns (agg: U64)
    ensures agg == RoundedUp(MinSum(mounts) % 0x1_0000_0000_0000_0000)
    ensures SumRepresentable(mounts) ==> agg % 512 == 0 && MinSum(mounts) <= agg < MinSum(mounts) + 512
  {
    SumModulo(mounts);
    agg := 0;
    for i := 0 to |mounts|
      invariant agg == WrappedSum(mounts[..i])
    {
      agg := Add(agg, mounts[i].minSize);
      assert mounts[..i + 1][..i] == mounts[..i];
    }
    assert mounts[..|mounts|] == mounts;
    RoundedUpMeans(agg);
    if agg % SECTOR != 0 {
      agg := Wrap((agg / SECTOR + 1) * SECTOR);
    }
  }

  /** Rounding up gives the next multiple of 512. */
  lemma {:induction false} RoundedUpMeans(x: U64)
    ensures x <= TWO64 - 512 ==> RoundedUp(x) % 512 == 0 && x <= RoundedUp(x) < x + 512
  {
    if x <= TWO64 - 512 && x % SECTOR != 0 {
      assert (x / SECTOR + 1) * SECTOR == x - x % SECTOR + SECTOR <= TWO64 - 1;
    }
  }

  function MinSum(mounts: seq<Mount>): nat {
    if mounts == [] then 0 else MinSum(mounts[..|mounts| - 1]) + mounts[|mounts| - 1].minSize
  }

  /** Bytes asked for the root. */
  function RootMin(mounts: seq<Mount>): nat {
    if mounts == [] then 0
    else RootMin(mounts[..|mounts| - 1]) + if mounts[|mounts| - 1].mountpoint == "/" then mounts[|mounts| - 1].minSize else 0
  }

  /** The sum of the minimum sizes is a uint64 that can be rounded up. */
  predicate SumRepresentable(mounts: seq<Mount>) {
    MinSum(mounts) <= TWO64 - SECTOR
  }

  /** Adding up with wrap-around gives the sum modulo 2^64. */
  lemma {:induction false} SumModulo(mounts: seq<Mount>)
    ensures WrappedSum(mounts) == MinSum(mounts) % TWO64
  {
    if mounts != [] {
      SumModulo(mounts[..|mounts| - 1]);
      AddModulo(MinSum(mounts[..|mounts| - 1]), mounts[|mounts| - 1].minSize);
    }
  }

  lemma {:induction false} AddModulo(a: nat, b: U64)
    ensures Add(a % TWO64, b) == (a + b) % TWO64
  {
    var q := a / TWO64;
    assert a == q * TWO64 + a % TWO64;
    if a % TWO64 + b >= TWO64 {
      assert a + b == (q + 1) * TWO64 + (a % TWO64 + b - TWO64);
    } else {
      assert a + b == q * TWO64 + (a % TWO64 + b);
    }
  }

  lemma {:induction false} SectorsConcat(a: seq<Extent>, b: seq<Extent>, n: nat)
    requires n <= |b|
    ensures Sectors(a + b, |a| + n) == Sectors(a, |a|) + Sectors(b, n)
  {
    if n == 0 {
      SectorsFrame(a, a + b, |a|);
    } else {
      SectorsConcat(a, b, n - 1);
      assert (a + b)[|a| + n - 1] == b[n - 1];
    }
  }

  /** Rounding each custom size down never takes more than was asked for it. */
  lemma {:induction false} CustomSectors(mounts: seq<Mount>)
    ensures SECTOR * Sectors(Custom(mounts), |Custom(mounts)|) + RootMin(mounts) <= MinSum(mounts)
  {
    if mounts != [] {
      var front, m := mounts[..|mounts| - 1], mounts[|mounts| - 1];
      CustomSectors(front);
      var last := if m.mountpoint != "/" then [Extent(0, m.minSize / SECTOR, Some(m.mountpoint))] else [];
      SectorsConcat(Custom(front), last, |last|);
      assert Sectors(last, |last|) == if m.mountpoint != "/" then m.minSize / SECTOR else 0;
    }
  }

  /**
   An image of the aggregated minimum size plus the base table's own needs has room:
   the layout is right and the root holds all bytes asked for "/". The condition is that
   the aggregate itself is representable.
   */
  lemma {:induction false} MinSizesHonoured(base: seq<Extent>, mounts: seq<Mount>, imageSize: U64, r: int)
    requires RootAt(base, r) && SumRepresentable(mounts)
    requires imageSize >= RoundedUp(WrappedSum(mounts)) + SECTOR * (FIRST_SECTOR + TAIL + Sectors(base, |base|))
    ensures var (ext, size) := Create(base, mounts, imageSize);
            && Packed(ext, size / SECTOR)
            && SECTOR * ext[r].size >= RootMin(mounts)
  {
    var all := base + Custom(mounts);
    EnoughSectors(base, mounts, imageSize);
    assert OneRoot(base);
    CreatePacks(base, mounts, imageSize);
    var (ext, size) := Create(base, mounts, imageSize);
    assert ext[r].Root();
    LaidOutSectors(all, size / SECTOR, |all|);
    RootTakesRest(ext, size / SECTOR, r);
    assert size / SECTOR >= imageSize / SECTOR;
  }

  lemma {:induction false} EnoughSectors(base: seq<Extent>, mounts: seq<Mount>, imageSize: U64)
    requires SumRepresentable(mounts)
    requires imageSize >= RoundedUp(WrappedSum(mounts)) + SECTOR * (FIRST_SECTOR + TAIL + Sectors(base, |base|))
    ensures var all := base + Custom(mounts);
            SECTOR * (imageSize / SECTOR) >= SECTOR * (FIRST_SECTOR + TAIL + Sectors(all, |all|)) + RootMin(mounts)
  {
    var custom := Custom(mounts);
    SumModulo(mounts);
    CustomSectors(mounts);
    SectorsConcat(base, custom, |custom|);
    RoundingCovers(WrappedSum(mounts), imageSize, FIRST_SECTOR + TAIL + Sectors(base, |base|));
  }

  lemma {:induction false} RoundingCovers(agg: U64, imageSize: U64, sectors: nat)
    requires agg <= TWO64 - SECTOR && imageSize >= RoundedUp(agg) + SECTOR * sectors
    ensures SECTOR * (imageSize / SECTOR) >= agg + SECTOR * sectors
  {
    var up := if agg % SECTOR != 0 then agg / SECTOR + 1 else agg / SECTOR;
    assert RoundedUp(agg) == SECTOR * up && SECTOR * up >= agg;
    assert imageSize >= SECTOR * (up + sectors);
  }

  /** The mount points that get a partition of their own. */
  function NonRoot(mounts: seq<Mount>): seq<Mount> {
    if mounts == [] then []
    else NonRoot(mounts[..|mounts| - 1]) + if mounts[|mounts| - 1].mountpoint != "/" then [mounts[|mounts| - 1]] else []
  }

  /** The custom partition is less than one sector short of what was asked, and never larger. */
  predicate Serves(e: Extent, m: Mount) {
    e.mount == Some(m.mountpoint) && 512 * e.size <= m.minSize < 512 * e.size + 512
  }

  /** The appended partitions serve the non-root mount points one by one, in order. */
  lemma {:induction false} CustomSizes(mounts: seq<Mount>)
    ensures |Custom(mounts)| == |NonRoot(mounts)|
    ensures forall k :: 0 <= k < |NonRoot(mounts)| ==> Serves(Custom(mounts)[k], NonRoot(mounts)[k])
  {
    if mounts != [] {
      CustomSizes(mounts[..|mounts| - 1]);
    }
  }

  /** Bytes left for the root by an image of `limit` sectors, possibly negative. */
  function RootRoom(ext: seq<Extent>, limit: U64): int {
    SECTOR * (limit - FIRST_SECTOR - TAIL - Sectors(ext, |ext|))
  }

  /**
   The exact condition, for every request: the layout is right and the root holds what was
   asked for "/" if and only if that much room is left. Custom partitions always serve their
   mount points.
   */
  lemma {:induction false} HonouredExactly(base: seq<Extent>, mounts: seq<Mount>, imageSize: U64, r: int)
    requires RootAt(base, r)
    ensures var (ext, size) := Create(base, mounts, imageSize);
            && |ext| == |base| + |NonRoot(mounts)|
            && (Packed(ext, size / SECTOR) && SECTOR * ext[r].size >= RootMin(mounts) <==>
                  RootRoom(base + Custom(mounts), FinalSize(base + Custom(mounts), imageSize) / SECTOR) >= RootMin(mounts))
            && forall k :: 0 <= k < |NonRoot(mounts)| ==> Serves(ext[|base| + k], NonRoot(mounts)[k])
  {
    RoomIsExact(base, mounts, FinalSize(base + Custom(mounts), imageSize) / SECTOR, r);
    CustomServe(base, mounts, FinalSize(base + Custom(mounts), imageSize) / SECTOR);
  }

  lemma {:induction false} RoomIsExact(base: seq<Extent>, mounts: seq<Mount>, limit: U64, r: int)
    requires RootAt(base, r)
    ensures var all := base + Custom(mounts);
            Packed(LaidOut(all, limit), limit) && SECTOR * LaidOut(all, limit)[r].size >= RootMin(mounts) <==>
              RootRoom(all, limit) >= RootMin(mounts)
  {
    var all := base + Custom(mounts);
    var ext := LaidOut(all, limit);
    assert RootAt(all, r);
    PackedExactly(all, limit);
    LaidOutSectors(all, limit, |all|);
    assert ext[r].Root();
    if Packed(ext, limit) {
      RootTakesRest(ext, limit, r);
    }
  }

  lemma {:induction false} CustomServe(base: seq<Extent>, mounts: seq<Mount>, limit: U64)
    ensures var ext := LaidOut(base + Custom(mounts), limit);
            |ext| == |base| + |NonRoot(mounts)| && forall k :: 0 <= k < |NonRoot(mounts)| ==> Serves(ext[|base| + k], NonRoot(mounts)[k])
  {
    var all := base + Custom(mounts);
    CustomSizes(mounts);
    forall k | 0 <= k < |NonRoot(mounts)| ensures Serves(LaidOut(all, limit)[|base| + k], NonRoot(mounts)[k]) {
      assert Serves(Custom(mounts)[k], NonRoot(mounts)[k]);
      CustomKeepsSize(base, Custom(mounts), limit, k);
    }
  }

  /** Laying out moves the appended partitions and leaves the rest of them as it was. */
  lemma {:induction false} CustomKeepsSize(base: seq<Extent>, custom: seq<Extent>, limit: U64, k: nat)
    requires k < |custom| && !custom[k].Root()
    ensures var e := LaidOut(base + custom, limit)[|base| + k]; e.size == custom[k].size && e.mount == custom[k].mount
  {
    assert (base + custom)[|base| + k] == custom[k];
  }

  /**
   Two mount points of 2^63 bytes aggregate to zero. An image of that minimum plus the base
   table's needs meets the size condition of `MinSizesHonoured`, and its layout is wrong.
   */
  lemma {:induction false} AggregateWraps()
    ensures var mounts := [Mount("/a", HALF), Mount("/b", HALF)];
            var base := [Extent(0, 0, Some("/"))];
            var imageSize := SECTOR * (FIRST_SECTOR + TAIL);
            var (ext, size) := Create(base, mounts, imageSize);
            && RoundedUp(WrappedSum(mounts)) == 0 && !SumRepresentable(mounts) && RootAt(base, 0)
            && imageSize >= RoundedUp(WrappedSum(mounts)) + SECTOR * (FIRST_SECTOR + TAIL + Sectors(base, |base|))
            && !Packed(ext, size / SECTOR)
  {
    var a, b := Mount("/a", HALF), Mount("/b", HALF);
    var x, y, root := Extent(0, HALF_SECTORS, Some("/a")), Extent(0, HALF_SECTORS, Some("/b")), Extent(0, 0, Some("/"));
    assert [a, b][..1] == [a] && [a][..0] == [];
    assert WrappedSum([]) == 0 && MinSum([]) == 0;
    assert WrappedSum([a]) == HALF && MinSum([a]) == HALF;
    assert MinSum([a, b]) == HALF + HALF && WrappedSum([a, b]) == 0;
    assert Sectors([root], 1) == Sectors([root], 0) == 0;
    assert Custom([a]) == [x];
    assert Custom([a, b]) == [x, y];
    assert [root] + [x, y] == [root, x, y];
    HalvesTooLarge(x, y, root);
    assert RootAt([root], 0) && RootAt([root, x, y], 0);
    PackedExactly([root, x, y], FinalSize([root, x, y], SECTOR * (FIRST_SECTOR + TAIL)) / SECTOR);
  }

  const HALF: U64 := 0x8000_0000_0000_0000
  const HALF_SECTORS: U64 := 0x40_0000_0000_0000

  /** Two partitions of 2^63 bytes make the size bump far too small for them. */
  lemma {:induction false} HalvesTooLarge(x: Extent, y: Extent, root: Extent)
    requires x.size == HALF_SECTORS == y.size && root.size == 0 && root.Root() && !x.Root() && !y.Root()
    ensures !Fits([root, x, y], FinalSize([root, x, y], SECTOR * (FIRST_SECTOR + TAIL)) / SECTOR)
  {
    var all := [root, x, y];
    assert Sectors(all, 1) == 0;
    assert Sectors(all, 2) == HALF_SECTORS;
    assert Sectors(all, 3) == HALF_SECTORS + HALF_SECTORS;
    assert TableSize(all, 1) == 0;
    assert TableSize(all, 2) == HALF_SECTORS;
    assert TableSize(all, 3) == HALF_SECTORS + HALF_SECTORS;
  }

  /** Rounding down loses less than one sector per mount point. */
  lemma {:induction false} CustomSectorsLower(mounts: seq<Mount>)
    ensures SECTOR * Sectors(Custom(mounts), |Custom(mounts)|) + RootMin(mounts) + SECTOR * |mounts| >= MinSum(mounts)
  {
    if mounts != [] {
      var front, m := mounts[..|mounts| - 1], mounts[|mounts| - 1];
      CustomSectorsLower(front);
      var last := if m.mountpoint != "/" then [Extent(0, m.minSize / SECTOR, Some(m.mountpoint))] else [];
      SectorsConcat(Custom(front), last, |last|);
      assert Sectors(last, |last|) == if m.mountpoint != "/" then m.minSize / SECTOR else 0;
    }
  }

  /** Once the true sum clearly exceeds a uint64, no image size can honour the request. */
  lemma {:induction false} TooMuchAsked(base: seq<Extent>, mounts: seq<Mount>, imageSize: U64, r: int)
    requires RootAt(base, r) && MinSum(mounts) >= TWO64 + SECTOR * |mounts|
    ensures var (ext, size) := Create(base, mounts, imageSize);
            !(Packed(ext, size / SECTOR) && SECTOR * ext[r].size >= RootMin(mounts))
  {
    var custom := Custom(mounts);
    var (ext, size) := Create(base, mounts, imageSize);
    CustomSectorsLower(mounts);
    SectorsConcat(base, custom, |custom|);
    LaidOutSectors(base + custom, size / SECTOR, |base + custom|);
    assert ext[r].Root();
    if Packed(ext, size / SECTOR) {
      RootTakesRest(ext, size / SECTOR, r);
    }
  }

  // ----- calling it again on the same base table -----

  /** What the caller's base table shows afterwards: unchanged if `append` reallocated. */
  function BaseAfter(base: seq<Extent>, mounts: seq<Mount>, imageSize: U64, reallocated: bool): seq<Extent> {
    if reallocated then base else Create(base, mounts, imageSize).0[..|base|]
  }

  /** A second call gives the same partitions and size exactly when the slice was reallocated or nothing was bumped. */
  lemma {:induction false} SecondCall(base: seq<Extent>, mounts: seq<Mount>, imageSize: U64, reallocated: bool)
    requires OneRoot(base) && Fits(base + Custom(mounts), imageSize / SECTOR)
    ensures var first := Create(base, mounts, imageSize);
            var second := Create(BaseAfter(base, mounts, imageSize, reallocated), mounts, imageSize);
            (second == first <==> reallocated || TableSize(base + Custom(mounts), |base + Custom(mounts)|) <= imageSize)
  {
    if !reallocated {
      var all := base + Custom(mounts);
      var (out, size) := Create(base, mounts, imageSize);
      var all' := out[..|base|] + Custom(mounts);
      SameExtents(base, Custom(mounts), size / SECTOR);
      SecondTableSize(base, mounts, imageSize);
      SameLayout(all, all', FinalSize(all', imageSize) / SECTOR, size / SECTOR);
    }
  }

  /** A base table whose root is larger than the image: the first call bumps the size, the second does not. */
  lemma {:induction false} SecondCallDiffers()
    ensures var base := [Extent(0, 2000000, Some("/"))];
            var imageSize := SECTOR * (FIRST_SECTOR + TAIL);
            var first := Create(base, [], imageSize);
            var second := Create(BaseAfter(base, [], imageSize, false), [], imageSize);
            && OneRoot(base) && Fits(base + Custom([]), imageSize / SECTOR)
            && first.1 == 2000000 && second.1 == imageSize && second != first
  {
    var base := [Extent(0, 2000000, Some("/"))];
    var imageSize := SECTOR * (FIRST_SECTOR + TAIL);
    assert base + Custom([]) == base && RootAt(base, 0);
    assert Sectors(base, 0) == 0 && Sectors(base, 1) == 0;
    assert TableSize(base, 0) == 0 && TableSize(base, 1) == 2000000;
    SecondTableSize(base, [], imageSize);
    assert Create(base, [], imageSize).0[..1] + Custom([]) == Create(base, [], imageSize).0;
  }

  /** The mutated base table differs from the base table only in starts and in the root's size. */
  lemma {:induction false} SameExtents(base: seq<Extent>, custom: seq<Extent>, limit: U64)
    ensures var all, all' := base + custom, LaidOut(base + custom, limit)[..|base|] + custom;
            && |all'| == |all|
            && (forall i :: 0 <= i < |all| ==> all[i].mount == all'[i].mount && (!all[i].Root() ==> all[i].size == all'[i].size))
            && (forall i :: 0 <= i < |base| ==> all'[i] == LaidOut(all, limit)[i])
  {
    var all, out := base + custom, LaidOut(base + custom, limit);
    var all' := out[..|base|] + custom;
    forall i | 0 <= i < |all| ensures all[i].mount == all'[i].mount && (!all[i].Root() ==> all[i].size == all'[i].size) {
      if i < |base| {
        assert all'[i] == out[i];
      } else {
        assert all'[i] == custom[i - |base|] == all[i];
      }
    }
  }

  /** On the second call the root has its computed size, so the table is far below the image size. */
  lemma {:induction false} SecondTableSize(base: seq<Extent>, mounts: seq<Mount>, imageSize: U64)
    requires OneRoot(base) && Fits(base + Custom(mounts), imageSize / SECTOR)
    ensures var (out, size) := Create(base, mounts, imageSize);
            var all' := out[..|base|] + Custom(mounts);
            TableSize(all', |all'|) == size / SECTOR - FIRST_SECTOR - TAIL
  {
    var all := base + Custom(mounts);
    var (out, size) := Create(base, mounts, imageSize);
    var all' := out[..|base|] + Custom(mounts);
    var r :| RootAt(base, r);
    CreatePacks(base, mounts, imageSize);
    SameExtents(base, Custom(mounts), size / SECTOR);
    assert RootAt(all, r) && RootAt(all', r) && all'[r] == out[r] && out[r].Root();
    SectorsFrame(all, all', |all|);
    LaidOutSectors(all, size / SECTOR, |all|);
    RootTakesRest(out, size / SECTOR, r);
    RelaidTableSize(all', r, |all'|);
  }

  /** With one root, the table size is the root plus all others, while that does not wrap. */
  lemma {:induction false} RelaidTableSize(ext: seq<Extent>, r: int, n: nat)
    requires RootAt(ext, r) && n <= |ext| && ext[r].size + Sectors(ext, |ext|) < TWO64
    ensures TableSize(ext, n) == Sectors(ext, n) + if r < n then ext[r].size else 0
  {
    if n > 0 {
      RelaidTableSize(ext, r, n - 1);
      SectorsMonotone(ext, n, |ext|);
    }
  }

  /** Tables that differ only in starts and in the root's size are laid out alike for the same size. */
  lemma {:induction false} SameLayout(ext: seq<Extent>, ext': seq<Extent>, limit': U64, limit: U64)
    requires |ext| == |ext'|
    requires forall i :: 0 <= i < |ext| ==> ext[i].mount == ext'[i].mount && (!ext[i].Root() ==> ext[i].size == ext'[i].size)
    ensures limit' == limit ==> LaidOut(ext', limit') == LaidOut(ext, limit)
  {
    SectorsFrame(ext, ext', |ext|);
    forall i | 0 <= i < |ext| ensures StartAt(ext', i) == StartAt(ext, i) {
      SectorsFrame(ext, ext', i);
    }
  }
}

/** `CreatePartitionTable` on the heap, proved against `Layout.Create`. */
module Disk {
  import opened Wrappers
  import opened Layout

  class Filesystem {
    const fsType: string
    const mountpoint: string
    var uuid: string

    constructor (fsType: string, mountpoint: string, uuid: string)
      ensures this.fsType == fsType && this.mountpoint == mountpoint && this.uuid == uuid
    {
      this.fsType, this.mountpoint, this.uuid := fsType, mountpoint, uuid;
    }
  }

  datatype Partition = Partition(start: U64, size: U64, partType: string, uuid: string, fs: Filesystem?)

  predicate Mounts(p: Partition, mountpoint: string) {
    p.fs != null && p.fs.mountpoint == mountpoint
  }

  /** A Go slice: the first `len` elements of a backing array that others may share. */
  datatype Slice = Slice(arr: array<Partition>, len: nat) {
    predicate Valid() { len <= arr.Length }

    function Elems(): seq<Partition>
      requires Valid()
      reads arr
    {
      arr[..len]
    }
  }

  /** Passed by value; `parts` still refers to the caller's backing array. */
  datatype Table = Table(size: U64, uuid: string, tableType: string, parts: Slice)

  function MountOf(p: Partition): Option<string> {
    if p.fs == null then None else Some(p.fs.mountpoint)
  }

  function View(s: seq<Partition>): (r: seq<Extent>)
    ensures |r| == |s| && forall i :: 0 <= i < |s| ==> r[i] == Extent(s[i].start, s[i].size, MountOf(s[i]))
  {
    seq(|s|, i requires 0 <= i < |s| => Extent(s[i].start, s[i].size, MountOf(s[i])))
  }

  /** The file systems of `s` are among `own`. */
  ghost predicate OwnedBy(s: seq<Partition>, own: set<Filesystem?>) {
    forall k :: 0 <= k < |s| ==> s[k].fs in own
  }

  /** The random source, as an unending stream of UUIDs. */
  class Rng {
    const stream: nat -> string
    var used: nat

    method NewUuid() returns (u: string)
      modifies this
      ensures u == stream(old(used)) && used == old(used) + 1
    {
      u := stream(used);
      used := used + 1;
    }

    constructor (stream: nat -> string)
      ensures this.stream == stream && used == 0
    {
      this.stream, used := stream, 0;
    }
  }

  /** Go's `append`: in place while there is capacity, otherwise into a larger copy. */
  method Append(s: Slice, p: Partition, spare: nat) returns (r: Slice)
    requires s.Valid()
    modifies s.arr
    ensures r.Valid() && r.len == s.len + 1 && r.Elems() == old(s.Elems()) + [p]
    ensures s.len < s.arr.Length ==> r.arr == s.arr
    ensures s.len == s.arr.Length ==> fresh(r.arr) && s.arr[..] == old(s.arr[..])
    ensures s.arr[..s.len] == old(s.arr[..s.len])
  {
    if s.len < s.arr.Length {
      s.arr[s.len] := p;
      r := Slice(s.arr, s.len + 1);
      assert r.arr[..s.len + 1] == old(s.arr[..s.len]) + [p];
    } else {
      var old_elems := s.arr[..s.len];
      var grown := new Partition[s.len + 1 + spare](i requires 0 <= i < s.len + 1 + spare reads s.arr requires s.len == s.arr.Length =>
        if i < s.len then s.arr[i] else p);
      r := Slice(grown, s.len + 1);
      assert grown[..s.len] == old_elems;
      assert grown[..s.len + 1] == old_elems + [p];
    }
  }

  /** The GPT type of a Linux file system partition. */
  const LINUX_DATA := "0FC63DAF-8483-4772-8E79-3D69D8477DE4"

  /** `createPartition`. */
  method CreatePartition(tableType: string, mountpoint: string, size: U64, rng: Rng) returns (p: Partition)
    modifies rng
    ensures p.start == 0 && p.size == size && p.fs != null && fresh(p.fs)
    ensures p.fs.mountpoint == mountpoint && p.fs.fsType == "xfs" && p.fs.uuid == rng.stream(old(rng.used))
    ensures p.partType == (if tableType == "gpt" then "0FC63DAF-8483-4772-8E79-3D69D8477DE4" else "") && rng.used == old(rng.used) + (if tableType == "gpt" then 2 else 1)
    ensures p.uuid == if tableType == "gpt" then rng.stream(old(rng.used) + 1) else ""
  {
    var u := rng.NewUuid();
    var fs := new Filesystem("xfs", mountpoint, u);
    if tableType != "gpt" {
      return Partition(0, size, "", "", fs);
    }
    u := rng.NewUuid();
    return Partition(0, size, LINUX_DATA, u, fs);
  }

  method GetPartitionTableSize(a: array<Partition>, n: nat) returns (size: U64)
    requires n <= a.Length
    ensures size == TableSize(View(a[..n]), n)
  {
    size := 0;
    for i := 0 to n
      invariant size == TableSize(View(a[..n]), i)
    {
      size := Add(size, a[i].size);
    }
  }

  /** Partition `r` is the one mounted at "/". */
  predicate IsRoot(s: seq<Partition>, r: int) {
    0 <= r < |s| && forall k :: 0 <= k < |s| ==> (Mounts(s[k], "/") <==> k == r)
  }

  /** `starts` are the running starts: partition `i` goes to entry `i`, the root `r` to the last one. */
  ghost predicate Running(s: seq<Partition>, r: int, starts: seq<U64>) {
    && |starts| == |s| + 1 && starts[0] == FIRST_SECTOR
    && forall i {:trigger s[i]} :: 0 <= i < |s| ==> starts[i + 1] == if i == r then starts[i] else Add(starts[i], s[i].size)
  }

  lemma {:induction false} RunningAt(s: seq<Partition>, r: int, starts: seq<U64>, i: int)
    requires IsRoot(s, r) && Running(s, r, starts) && 0 <= i < |s|
    ensures Mounts(s[i], "/") <==> i == r
    ensures starts[i + 1] == if i == r then starts[i] else Add(starts[i], s[i].size)
  {
  }

  /** The loop of `updatePartitionStartPointOffsets`: the root is only remembered. */
  method MoveOthers(a: array<Partition>, n: nat, ghost r: int, ghost starts: seq<U64>) returns (start: U64, rootIdx: int)
    requires n <= a.Length && IsRoot(a[..n], r) && Running(a[..n], r, starts)
    modifies a
    ensures start == starts[n] && rootIdx == r
    ensures forall k :: 0 <= k < n ==> a[k] == if k == r then old(a[..n])[k] else old(a[..n])[k].(start := starts[k])
  {
    ghost var was := a[..n];
    start := FIRST_SECTOR;
    rootIdx := -1;
    for i := 0 to n
      invariant start == starts[i]
      invariant rootIdx == if r < i then r else -1
      invariant forall k :: i <= k < n ==> a[k] == was[k]
      invariant forall k :: 0 <= k < i ==> a[k] == if k == r then was[k] else was[k].(start := starts[k])
    {
      var p := a[i];
      RunningAt(was, r, starts, i);
      assert p == was[i];
      if Mounts(p, "/") {
        rootIdx := i;
      } else {
        a[i] := p.(start := start);
        start := Add(start, p.size);
      }
    }
  }

  /** `updatePartitionStartPointOffsets`; like the original it needs a root partition. */
  method UpdateStarts(a: array<Partition>, n: nat, ghost r: int, ghost starts: seq<U64>) returns (start: U64)
    requires n <= a.Length && IsRoot(a[..n], r) && Running(a[..n], r, starts)
    modifies a
    ensures start == starts[n]
    ensures a[..n] == Moved(old(a[..n]), r, starts)
  {
    var rootIdx;
    start, rootIdx := MoveOthers(a, n, r, starts);
    a[rootIdx] := a[rootIdx].(start := start);
  }

  /** The same partition, possibly at another place. */
  predicate Same(p: Partition, q: Partition) {
    q == p.(start := q.start, size := q.size)
  }

  ghost predicate SameParts(s: seq<Partition>, t: seq<Partition>) {
    |t| == |s| && forall k :: 0 <= k < |s| ==> Same(s[k], t[k])
  }

  /** Every partition at its start. */
  ghost function Moved(s: seq<Partition>, r: int, starts: seq<U64>): (m: seq<Partition>)
    requires |starts| == |s| + 1
    ensures |m| == |s| && forall k :: 0 <= k < |s| ==> m[k] == s[k].(start := if k == r then starts[|s|] else starts[k])
  {
    seq(|s|, k requires 0 <= k < |s| => s[k].(start := if k == r then starts[|s|] else starts[k]))
  }

  /** First partition mounted at `mountpoint`, or -1 (`RootPartition`, `BootPartition`). */
  method FindMount(a: array<Partition>, n: nat, mountpoint: string) returns (i: int)
    requires n <= a.Length
    ensures -1 <= i < n
    ensures i >= 0 ==> Mounts(a[i], mountpoint)
    ensures forall k :: 0 <= k < (if i < 0 then n else i) ==> !Mounts(a[k], mountpoint)
  {
    i := 0;
    while i < n
      invariant 0 <= i <= n
      invariant forall k :: 0 <= k < i ==> !Mounts(a[k], mountpoint)
    {
      if Mounts(a[i], mountpoint) {
        return i;
      }
      i := i + 1;
    }
    return -1;
  }

  /** `r` is the base slice grown by `added`: in its own array while that has room, otherwise in another. */
  ghost predicate Grown(base: Slice, r: Slice, was: seq<Partition>, added: seq<Partition>)
    reads base.arr, r.arr
  {
    && base.Valid() && base.Elems() == was && r.Valid() && r.Elems() == was + added
    && (r.arr == base.arr <==> r.len <= base.arr.Length)
  }

  /** One turn of the append loop. */
  method AddMount(base: Slice, s: Slice, m: Mount, tableType: string, rng: Rng, spare: nat, ghost was: seq<Partition>, ghost added: seq<Partition>)
    returns (r: Slice, ghost p: Partition)
    requires Grown(base, s, was, added)
    modifies s.arr, rng
    ensures Grown(base, r, was, added + [p]) && (r.arr == s.arr || fresh(r.arr))
    ensures p.start == 0 && p.size == m.minSize / SECTOR && MountOf(p) == Some(m.mountpoint) && fresh(p.fs)
  {
    var created := CreatePartition(tableType, m.mountpoint, m.minSize / SECTOR, rng);
    p := created;
    r := Append(s, created, spare);
    assert was + added + [p] == was + (added + [p]);
    assert s.arr[..s.len][..base.len] == s.arr[..base.len];
  }

  /** The append loop over the mount points. */
  method AppendMounts(base: Slice, mounts: seq<Mount>, tableType: string, rng: Rng, spare: nat)
    returns (r: Slice, ghost added: seq<Partition>)
    requires base.Valid()
    modifies base.arr, rng
    ensures Grown(base, r, old(base.Elems()), added) && View(added) == Custom(mounts) && (r.arr == base.arr || fresh(r.arr))
    ensures forall k :: 0 <= k < |added| ==> fresh(added[k].fs)
  {
    r, added := base, [];
    for i := 0 to |mounts|
      invariant Grown(base, r, old(base.Elems()), added) && View(added) == Custom(mounts[..i]) && (r.arr == base.arr || fresh(r.arr))
      invariant forall k :: 0 <= k < |added| ==> fresh(added[k].fs)
    {
      CustomNext(mounts, i);
      if mounts[i].mountpoint != "/" {
        ghost var p;
        r, p := AddMount(base, r, mounts[i], tableType, rng, spare, old(base.Elems()), added);
        ViewSnoc(added, p);
        added := added + [p];
      }
    }
    assert mounts[..|mounts|] == mounts;
  }

  lemma {:induction false} CustomNext(mounts: seq<Mount>, i: nat)
    requires i < |mounts|
    ensures Custom(mounts[..i + 1]) == Custom(mounts[..i]) +
              if mounts[i].mountpoint != "/" then [Extent(0, mounts[i].minSize / SECTOR, Some(mounts[i].mountpoint))] else []
  {
    assert mounts[..i + 1][..i] == mounts[..i];
  }

  lemma {:induction false} ViewSnoc(s: seq<Partition>, p: Partition)
    ensures View(s + [p]) == View(s) + [Extent(p.start, p.size, MountOf(p))]
  {
  }

  lemma {:induction false} ViewConcat(s: seq<Partition>, t: seq<Partition>)
    ensures View(s + t) == View(s) + View(t)
  {
  }

  ghost function Starts(ext: seq<Extent>): (starts: seq<U64>)
    ensures |starts| == |ext| + 1 && forall i :: 0 <= i <= |ext| ==> starts[i] == StartAt(ext, i)
  {
    seq(|ext| + 1, i requires 0 <= i <= |ext| => StartAt(ext, i))
  }

  lemma {:induction false} RunningStarts(s: seq<Partition>, r: int)
    requires RootAt(View(s), r)
    ensures IsRoot(s, r) && Running(s, r, Starts(View(s)))
  {
    var ext := View(s);
    forall i | 0 <= i < |s|
      ensures Mounts(s[i], "/") <==> i == r
      ensures Starts(ext)[i + 1] == if i == r then Starts(ext)[i] else Add(Starts(ext)[i], s[i].size)
    {
      assert ext[i] == Extent(s[i].start, s[i].size, MountOf(s[i]));
    }
  }

  /** Everything after the appends: bump the size, set the starts, size the root. */
  method PlaceAll(a: array<Partition>, n: nat, imageSize: U64, ghost r: int) returns (size: U64, i: int)
    requires n <= a.Length && RootAt(View(a[..n]), r)
    modifies a
    ensures i == r && size == FinalSize(old(View(a[..n])), imageSize)
    ensures a[..n] == Arranged(old(a[..n]), r, size / SECTOR)
  {
    ghost var was := a[..n];
    RunningStarts(was, r);
    var tableSize := GetPartitionTableSize(a, n);
    size := if imageSize < tableSize then tableSize else imageSize;
    i := PlaceParts(a, n, size, r, Starts(View(was)));
  }

  /** All partitions moved, and the root sized. */
  ghost function Arranged(s: seq<Partition>, r: int, limit: U64): (m: seq<Partition>)
    requires 0 <= r < |s|
    ensures SameParts(s, m)
  {
    Sized(Moved(s, r, Starts(View(s))), r, limit)
  }

  /** The starts, then the root's size. */
  method PlaceParts(a: array<Partition>, n: nat, size: U64, ghost r: int, ghost starts: seq<U64>) returns (i: int)
    requires n <= a.Length && IsRoot(a[..n], r) && Running(a[..n], r, starts)
    modifies a
    ensures i == r && a[..n] == Sized(Moved(old(a[..n]), r, starts), r, size / SECTOR)
  {
    ghost var was := a[..n];
    var start := UpdateStarts(a, n, r, starts);
    ghost var moved := a[..n];
    assert forall k :: 0 <= k < |was| ==> moved[k].fs == was[k].fs && moved[k] == a[k];
    assert forall k :: 0 <= k < |was| ==> (Mounts(a[k], "/") <==> k == r);
    assert Mounts(a[r], "/");
    i := FindMount(a, n, "/");
    a[i] := a[i].(size := Sub(Sub(size / SECTOR, start), TAIL));
    assert a[..n] == moved[r := moved[r].(size := Sub(Sub(size / SECTOR, start), TAIL))];
  }

  ghost function Sized(s: seq<Partition>, r: int, limit: U64): (m: seq<Partition>)
    requires 0 <= r < |s|
    ensures SameParts(s, m)
  {
    s[r := s[r].(size := Sub(Sub(limit, s[r].start), TAIL))]
  }

  /** On extents, arranging is the layout. */
  lemma {:induction false} ArrangedView(s: seq<Partition>, r: int, limit: U64)
    requires RootAt(View(s), r)
    ensures View(Arranged(s, r, limit)) == LaidOut(View(s), limit)
  {
    var ext := View(s);
    forall k | 0 <= k < |s| ensures View(Arranged(s, r, limit))[k] == LaidOut(ext, limit)[k] {
      assert ext[k] == Extent(s[k].start, s[k].size, MountOf(s[k]));
    }
  }

  lemma {:induction false} ViewPrefix(s: seq<Partition>, n: nat)
    requires n <= |s|
    ensures View(s[..n]) == View(s)[..n]
  {
  }

  /** `after` is the laid out table of the base partitions `was` and the appended ones. */
  ghost predicate LaidOutTable(was: seq<Partition>, added: seq<Partition>, after: seq<Partition>, mounts: seq<Mount>, imageSize: U64, size: U64) {
    && (View(after), size) == Create(View(was), mounts, imageSize)
    && SameParts(was + added, after)
    && View(after[..|was|]) == Create(View(was), mounts, imageSize).0[..|was|] && SameParts(was, after[..|was|])
  }

  /** Appends and layout, without the UUIDs of existing file systems. */
  method Arrange(mounts: seq<Mount>, imageSize: U64, base: Table, rng: Rng, spare: nat, ghost r: int)
    returns (pt: Table, root: int, ghost added: seq<Partition>)
    requires base.parts.Valid() && RootAt(View(base.parts.Elems()), r)
    modifies base.parts.arr, rng
    ensures pt.parts.Valid() && pt == base.(size := pt.size, parts := pt.parts) && root == r
    ensures LaidOutTable(old(base.parts.Elems()), added, pt.parts.Elems(), mounts, imageSize, pt.size) && View(added) == Custom(mounts)
    ensures pt.parts.arr == base.parts.arr <==> pt.parts.len <= base.parts.arr.Length
    ensures base.parts.Elems() == if pt.parts.arr == base.parts.arr then pt.parts.Elems()[..base.parts.len] else old(base.parts.Elems())
  {
    ghost var was := base.parts.Elems();
    var parts;
    parts, added := AppendMounts(base.parts, mounts, base.tableType, rng, spare);
    var size;
    size, root := PlaceTable(parts, mounts, imageSize, was, added, r);
    pt := base.(size := size, parts := parts);
    if parts.arr == base.parts.arr {
      SlicePrefix(parts, base.parts);
    }
  }

  lemma {:induction false} SlicePrefix(all: Slice, part: Slice)
    requires all.Valid() && part.Valid() && all.arr == part.arr && part.len <= all.len
    ensures part.Elems() == all.Elems()[..part.len]
  {
  }

  /** Lay out a table made of the base partitions `was` and the appended ones. */
  method PlaceTable(parts: Slice, mounts: seq<Mount>, imageSize: U64, ghost was: seq<Partition>, ghost added: seq<Partition>, ghost r: int)
    returns (size: U64, root: int)
    requires parts.Valid() && parts.Elems() == was + added && View(added) == Custom(mounts) && RootAt(View(was), r)
    modifies parts.arr
    ensures root == r && LaidOutTable(was, added, parts.Elems(), mounts, imageSize, size)
  {
    ghost var elems := parts.Elems();
    ViewConcat(was, added);
    assert View(was)[r].Root() && RootAt(View(elems), r);
    size, root := PlaceAll(parts.arr, parts.len, imageSize, r);
    ArrangedTable(was, elems, parts.Elems(), mounts, imageSize, r, size);
    SamePrefix(was, added, parts.Elems());
  }

  lemma {:induction false} SamePrefix(s: seq<Partition>, t: seq<Partition>, all: seq<Partition>)
    requires SameParts(s + t, all)
    ensures SameParts(s, all[..|s|])
  {
    forall k | 0 <= k < |s| ensures Same(s[k], all[..|s|][k]) {
      assert Same((s + t)[k], all[k]);
    }
  }

  /** The arranged partitions are the created table, and its beginning is what the base table may show. */
  lemma {:induction false} ArrangedTable(was: seq<Partition>, elems: seq<Partition>, after: seq<Partition>, mounts: seq<Mount>, imageSize: U64, r: int, size: U64)
    requires View(elems) == View(was) + Custom(mounts) && RootAt(View(elems), r)
    requires size == FinalSize(View(elems), imageSize) && after == Arranged(elems, r, size / SECTOR)
    ensures (View(after), size) == Create(View(was), mounts, imageSize)
    ensures |was| <= |after| && View(after[..|was|]) == Create(View(was), mounts, imageSize).0[..|was|]
  {
    ArrangedView(elems, r, size / SECTOR);
    ViewPrefix(after, |was|);
  }

  /** The root of the created table is the root of the base table, with the same file system. */
  lemma {:induction false} RootKept(was: seq<Partition>, added: seq<Partition>, after: seq<Partition>, mounts: seq<Mount>, imageSize: U64, size: U64, r: int)
    requires LaidOutTable(was, added, after, mounts, imageSize, size) && View(added) == Custom(mounts) && RootAt(View(was), r)
    ensures |after| == |was| + |Custom(mounts)|
    ensures Mounts(was[r], "/") && after[r].fs == was[r].fs
  {
    assert Same((was + added)[r], after[r]);
    assert View(was)[r].mount == MountOf(was[r]);
  }

  lemma {:induction false} BaseOwned(was: seq<Partition>, now: seq<Partition>, own: set<Filesystem?>)
    requires OwnedBy(was, own) && (SameParts(was, now) || now == was)
    ensures OwnedBy(now, own)
  {
    forall k | 0 <= k < |now| ensures now[k].fs in own {
      assert SameParts(was, now) ==> Same(was[k], now[k]);
    }
  }

  /**
   `CreatePartitionTable`: the result is `Layout.Create` of the base partitions. The
   caller's base table shows the new starts and root size if the backing array had
   room for the appended partitions, and is untouched otherwise.
   */
  method CreatePartitionTable(mounts: seq<Mount>, imageSize: U64, base: Table, rng: Rng, spare: nat, ghost own: set<Filesystem?>)
    returns (pt: Table, ghost boot: int)
    requires base.parts.Valid() && OneRoot(View(base.parts.Elems())) && OwnedBy(base.parts.Elems(), own)
    modifies base.parts.arr, own, rng
    ensures pt.parts.Valid() && pt.parts.len == base.parts.len + |Custom(mounts)| && pt == base.(size := pt.size, parts := pt.parts)
    ensures (View(pt.parts.Elems()), pt.size) == Create(old(View(base.parts.Elems())), mounts, imageSize)
    ensures View(base.parts.Elems()) ==
            BaseAfter(old(View(base.parts.Elems())), mounts, imageSize, pt.parts.len > base.parts.arr.Length)
    ensures pt.parts.arr == base.parts.arr <==> pt.parts.len <= base.parts.arr.Length
    ensures FirstAt(old(base.parts.Elems()), "/boot", boot)
    ensures boot >= 0 ==> old(base.parts.Elems())[boot].fs.uuid == rng.stream(old(rng.used))
    ensures OwnedBy(base.parts.Elems(), own)
    ensures SameParts(old(base.parts.Elems()), pt.parts.Elems()[..base.parts.len])
    ensures exists k :: 0 <= k < base.parts.len && Mounts(old(base.parts.Elems())[k], "/") && RenewedLast(old(base.parts.Elems())[k].fs, rng)
  {
    ghost var was := base.parts.Elems();
    ghost var r :| RootAt(View(was), r);
    boot := RenewBoot(base.parts, rng, own);
    RootIsMounted(was, r);
    assert boot >= 0 ==> was[boot].fs != was[r].fs;
    ghost var added;
    pt, added := Finish(mounts, imageSize, base, rng, spare, r);
    RootKept(was, added, pt.parts.Elems(), mounts, imageSize, pt.size, r);
    BaseOwned(was, base.parts.Elems(), own);
  }

  lemma {:induction false} RootIsMounted(s: seq<Partition>, r: int)
    requires RootAt(View(s), r)
    ensures Mounts(s[r], "/")
  {
    assert View(s)[r].mount == MountOf(s[r]);
  }

  /** Appends, layout and the UUID of the root. */
  method Finish(mounts: seq<Mount>, imageSize: U64, base: Table, rng: Rng, spare: nat, ghost r: int)
    returns (pt: Table, ghost added: seq<Partition>)
    requires base.parts.Valid() && RootAt(View(base.parts.Elems()), r)
    modifies base.parts.arr, base.parts.Elems()[r].fs, rng
    ensures pt.parts.Valid() && pt == base.(size := pt.size, parts := pt.parts)
    ensures LaidOutTable(old(base.parts.Elems()), added, pt.parts.Elems(), mounts, imageSize, pt.size) && View(added) == Custom(mounts)
    ensures pt.parts.arr == base.parts.arr <==> pt.parts.len <= base.parts.arr.Length
    ensures base.parts.Elems() == if pt.parts.arr == base.parts.arr then pt.parts.Elems()[..base.parts.len] else old(base.parts.Elems())
    ensures RenewedLast(old(base.parts.Elems())[r].fs, rng)
  {
    ghost var was := base.parts.Elems();
    var root;
    pt, root, added := Arrange(mounts, imageSize, base, rng, spare, r);
    RootKept(was, added, pt.parts.Elems(), mounts, imageSize, pt.size, r);
    assert pt.parts.arr[root] == pt.parts.Elems()[root];
    Renew(pt.parts.arr[root].fs, rng);
  }

  /** The boot file system, if there is one, gets a new UUID. */
  method RenewBoot(parts: Slice, rng: Rng, ghost own: set<Filesystem?>) returns (ghost boot: int)
    requires parts.Valid() && OwnedBy(parts.Elems(), own)
    modifies own, rng
    ensures parts.Elems() == old(parts.Elems()) && FirstAt(parts.Elems(), "/boot", boot)
    ensures boot >= 0 ==> parts.Elems()[boot].fs.uuid == rng.stream(old(rng.used))
  {
    var i := FindMount(parts.arr, parts.len, "/boot");
    boot := i;
    assert forall k :: 0 <= k < parts.len ==> parts.arr[k] == parts.Elems()[k];
    if i >= 0 {
      Renew(parts.arr[i].fs, rng);
    }
  }

  /** `i` is the first partition mounted there, or -1 if there is none. */
  predicate FirstAt(s: seq<Partition>, mountpoint: string, i: int) {
    && -1 <= i < |s| && (i >= 0 ==> Mounts(s[i], mountpoint))
    && forall k :: 0 <= k < (if i < 0 then |s| else i) ==> !Mounts(s[k], mountpoint)
  }

  /** The file system carries the last UUID drawn. */
  ghost predicate RenewedLast(fs: Filesystem?, rng: Rng)
    reads fs, rng
  {
    fs != null && rng.used > 0 && fs.uuid == rng.stream(rng.used - 1)
  }

  method Renew(fs: Filesystem, rng: Rng)
    modifies fs`uuid, rng
    ensures RenewedLast(fs, rng) && fs.uuid == rng.stream(old(rng.used))
  {
    var u := rng.NewUuid();
    fs.uuid := u;
  }

  /** Two calls on the same base table with the same arguments, as the image types make them. */
  method CreateTwice(mounts: seq<Mount>, imageSize: U64, base: Table, rng: Rng, spare: nat, ghost own: set<Filesystem?>)
    returns (ghost first: (seq<Extent>, U64), pt: Table)
    requires base.parts.Valid() && OneRoot(View(base.parts.Elems())) && OwnedBy(base.parts.Elems(), own)
    requires Fits(View(base.parts.Elems()) + Custom(mounts), imageSize / SECTOR)
    modifies base.parts.arr, own, rng
    ensures pt.parts.Valid() && first == Create(old(View(base.parts.Elems())), mounts, imageSize)
    ensures var all := old(View(base.parts.Elems())) + Custom(mounts);
            (View(pt.parts.Elems()), pt.size) == first <==>
              base.parts.arr.Length < |all| || TableSize(all, |all|) <= imageSize
  {
    ghost var was := View(base.parts.Elems());
    ghost var boot;
    var one;
    one, boot := CreatePartitionTable(mounts, imageSize, base, rng, spare, own);
    first := (View(one.parts.Elems()), one.size);
    SecondCall(was, mounts, imageSize, one.parts.len > base.parts.arr.Length);
    BaseKeepsRoot(was, mounts, imageSize, one.parts.len > base.parts.arr.Length);
    pt, boot := CreatePartitionTable(mounts, imageSize, base, rng, spare, own);
  }

  lemma {:induction false} BaseKeepsRoot(base: seq<Extent>, mounts: seq<Mount>, imageSize: U64, reallocated: bool)
    requires OneRoot(base)
    ensures OneRoot(BaseAfter(base, mounts, imageSize, reallocated))
  {
    var r :| RootAt(base, r);
    assert RootAt(BaseAfter(base, mounts, imageSize, reallocated), r);
  }
}
