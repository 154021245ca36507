/** The descriptor-ring builder: configure_dma_lli splits a buffer into equal
    slices, one linked-list item per slice, and links the items into a ring.
    `base` is the bus address at which the item array itself lives, so that
    the address of item k is base + k * LliSize. */
module Ring {
  import opened Gpdma

  /** Bytes moved by one transfer (SWIDTH = DWIDTH = 2 selects 32-bit words). */
  const TransferBytes: nat := 4

  /** Transfers per slice. Both divisions truncate; nothing checks that they
      are exact. */
  function TransferSize(byteCount: nat, count: nat): nat
    requires count >= 1
  {
    byteCount / count / TransferBytes
  }

  /** Bytes per slice: a whole number of transfers. */
  function SliceBytes(byteCount: nat, count: nat): nat
    requires count >= 1
  {
    TransferSize(byteCount, count) * TransferBytes
  }

  /** Start of slice i within the buffer. */
  function MemoryAddress(buffer: nat, byteCount: nat, count: nat, i: nat): nat
    requires count >= 1
  {
    buffer + SliceBytes(byteCount, count) * i
  }

  /** Address of item k of an item array placed at `base`. */
  function LinkAddress(base: nat, k: nat): nat
  {
    base + k * LliSize
  }

  /** `addr | bit` for a one-bit tag. */
  function TagLink(addr: nat, bit: nat): (r: nat)
    requires bit <= 1
    ensures r / 2 == addr / 2
    ensures r % 2 == if bit == 1 then 1 else addr % 2
  {
    if bit == 1 && addr % 2 == 0 then addr + 1 else addr
  }

  /** AHB master of the source: 1 when memory is the source (transmit). */
  function SourceMaster(transmit: bool): nat { if transmit then 1 else 0 }

  /** AHB master of the destination: the other one. */
  function DestinationMaster(transmit: bool): nat { if transmit then 0 else 1 }

  /** AHB master that fetches the next item, carried in bit 0 of the link. */
  function FetchMaster(transmit: bool): nat { if transmit then 0 else 1 }

  /** The item configure_dma_lli writes at index i. */
  function Descriptor(transmit: bool, buffer: nat, byteCount: nat, count: nat, base: nat, i: nat): Lli
    requires 1 <= count && i < count
  {
    var memory := MemoryAddress(buffer, byteCount, count, i);
    Lli(
      srcAddr := if transmit then memory else SgpioSs0,
      destAddr := if transmit then SgpioSs0 else memory,
      clli := TagLink(LinkAddress(base, (i + 1) % count), FetchMaster(transmit)),
      control := ControlWord(
        transferSize := TransferSize(byteCount, count),
        sbSize := 0, dbSize := 0, sWidth := 2, dWidth := 2,
        s := SourceMaster(transmit), d := DestinationMaster(transmit),
        si := if transmit then 1 else 0, di := if transmit then 0 else 1,
        prot1 := 0, prot2 := 0, prot3 := 0,
        interrupt := i % 2))
  }

  /** The whole ring configure_dma_lli writes. */
  function BuildRing(transmit: bool, buffer: nat, byteCount: nat, count: nat, base: nat): (r: seq<Lli>)
    requires count >= 1
    ensures |r| == count
  {
    seq(count, i requires 0 <= i < count => Descriptor(transmit, buffer, byteCount, count, base, i))
  }

  /** configure_dma_lli: fills every item of `lli` in place. The item count is
      the array's length; it must be positive because the slice size divides
      by it. */
  method ConfigureDmaLli(lli: array<Lli>, transmit: bool, buffer: nat, byteCount: nat, base: nat)
    requires lli.Length >= 1
    modifies lli
    ensures lli[..] == BuildRing(transmit, buffer, byteCount, lli.Length, base)
  {
    var count := lli.Length;
    var transferSize := byteCount / count / TransferBytes;
    var transferSizeBytes := transferSize * TransferBytes;
    for i := 0 to count
      invariant forall j :: 0 <= j < i ==> lli[j] == Descriptor(transmit, buffer, byteCount, count, base, j)
    {
      var peripheralAddress := SgpioSs0;
      var memoryAddress := buffer + transferSizeBytes * i;
      var sourceMaster := if transmit then 1 else 0;
      var destinationMaster := if transmit then 0 else 1;
      var lliFetchMaster := if transmit then 0 else 1;
      var interruptAfterThisLli := i % 2;
      lli[i] := Lli(
        srcAddr := if transmit then memoryAddress else peripheralAddress,
        destAddr := if transmit then peripheralAddress else memoryAddress,
        clli := TagLink(LinkAddress(base, (i + 1) % count), lliFetchMaster),
        control := ControlWord(
          transferSize := transferSize,
          sbSize := 0, dbSize := 0, sWidth := 2, dWidth := 2,
          s := sourceMaster, d := destinationMaster,
          si := if transmit then 1 else 0, di := if transmit then 0 else 1,
          prot1 := 0, prot2 := 0, prot3 := 0,
          interrupt := interruptAfterThisLli));
    }
    assert forall j :: 0 <= j < count ==> lli[..][j] == BuildRing(transmit, buffer, byteCount, count, base)[j];
  }

  // ---------------------------------------------------------------------------
  // Slices

  /** The memory-side address of an item: its source when transmitting, its
      destination when receiving. */
  function MemorySide(d: Lli, transmit: bool): nat
  {
    if transmit then d.srcAddr else d.destAddr
  }

  /** The peripheral-side address of an item. */
  function PeripheralSide(d: Lli, transmit: bool): nat
  {
    if transmit then d.destAddr else d.srcAddr
  }

  /** Bytes one item moves: TRANSFERSIZE transfers of 32 bits. */
  function SliceLength(d: Lli): nat
  {
    d.control.transferSize * TransferBytes
  }

  /** Item i covers the i-th slice of the buffer. */
  lemma SliceLayout(transmit: bool, buffer: nat, byteCount: nat, count: nat, base: nat, i: nat)
    requires 1 <= count && i < count
    ensures var r := BuildRing(transmit, buffer, byteCount, count, base);
      && MemorySide(r[i], transmit) == buffer + i * SliceBytes(byteCount, count)
      && SliceLength(r[i]) == SliceBytes(byteCount, count)
      && PeripheralSide(r[i], transmit) == SgpioSs0
  {
  }

  /** Each slice ends where the next one begins. */
  lemma SlicesContiguous(transmit: bool, buffer: nat, byteCount: nat, count: nat, base: nat, i: nat)
    requires 1 <= count && i + 1 < count
    ensures var r := BuildRing(transmit, buffer, byteCount, count, base);
      MemorySide(r[i], transmit) + SliceLength(r[i]) == MemorySide(r[i + 1], transmit)
  {
    var s := SliceBytes(byteCount, count);
    assert s * (i + 1) == s * i + s;
  }

  /** Slices appear in ascending order and do not overlap. */
  lemma SlicesDisjoint(transmit: bool, buffer: nat, byteCount: nat, count: nat, base: nat, i: nat, j: nat)
    requires 1 <= count && i < j < count
    ensures var r := BuildRing(transmit, buffer, byteCount, count, base);
      MemorySide(r[i], transmit) + SliceLength(r[i]) <= MemorySide(r[j], transmit)
  {
    var s := SliceBytes(byteCount, count);
    MulMonotone(s, i + 1, j);
    assert s * (i + 1) == s * i + s;
  }

  /** The slices together cover a prefix of the buffer: never more than
      byteCount bytes, and what the truncation leaves unused is fewer than
      count * TransferBytes bytes. */
  lemma CoveredPrefix(byteCount: nat, count: nat)
    requires count >= 1
    ensures count * SliceBytes(byteCount, count) <= byteCount
    ensures byteCount - count * SliceBytes(byteCount, count) < count * TransferBytes
  {
    var q := byteCount / count;
    var w := q / TransferBytes;
    assert byteCount == q * count + byteCount % count;
    assert q == w * TransferBytes + q % TransferBytes;
    assert count * SliceBytes(byteCount, count) == count * (w * TransferBytes);
    assert count * (w * TransferBytes) == count * q - count * (q % TransferBytes);
    assert count * (q % TransferBytes) <= count * (TransferBytes - 1);
  }

  /** When count * TransferBytes divides byteCount the slices cover the whole
      buffer exactly. */
  lemma ExactCover(byteCount: nat, count: nat)
    requires count >= 1
    requires byteCount % (count * TransferBytes) == 0
    ensures count * SliceBytes(byteCount, count) == byteCount
  {
    var m := byteCount / (count * TransferBytes);
    assert byteCount == m * (count * TransferBytes);
    assert byteCount == (m * TransferBytes) * count;
    DivModUnique(byteCount, count, m * TransferBytes, 0);
    assert (m * TransferBytes) / TransferBytes == m;
  }

  /** Every slice lies inside the buffer. */
  lemma SlicesInsideBuffer(transmit: bool, buffer: nat, byteCount: nat, count: nat, base: nat, i: nat)
    requires 1 <= count && i < count
    ensures var r := BuildRing(transmit, buffer, byteCount, count, base);
      && buffer <= MemorySide(r[i], transmit)
      && MemorySide(r[i], transmit) + SliceLength(r[i]) <= buffer + byteCount
  {
    var s := SliceBytes(byteCount, count);
    CoveredPrefix(byteCount, count);
    MulMonotone(s, i + 1, count);
    assert s * i + s == s * (i + 1);
  }

  lemma MulMonotone(s: nat, a: nat, b: nat)
    requires a <= b
    ensures s * a <= s * b
  {
  }

  // ---------------------------------------------------------------------------
  // Links

  /** The index of the item a link designates: its distance from `base` in
      items, ignoring the tag bit. */
  function Next(r: seq<Lli>, base: nat, i: nat): int
    requires i < |r|
  {
    (r[i].clli - base) / LliSize
  }

  /** The index reached from item i by following m links (stopping early at a
      link that leaves the array). */
  function Follow(r: seq<Lli>, base: nat, i: int, m: nat): int
    decreases m
  {
    if m == 0 || !(0 <= i < |r|) then i else Follow(r, base, Next(r, base, i), m - 1)
  }

  /** Every item of r links to its successor, the last one to item 0. */
  ghost predicate LinksToSuccessor(r: seq<Lli>, base: nat)
  {
    forall i :: 0 <= i < |r| ==> Next(r, base, i) == if i + 1 < |r| then i + 1 else 0
  }

  /** Item i of a built ring links to item (i + 1) mod count. */
  lemma NextOnRing(transmit: bool, buffer: nat, byteCount: nat, count: nat, base: nat)
    requires count >= 1
    ensures LinksToSuccessor(BuildRing(transmit, buffer, byteCount, count, base), base)
  {
    var r := BuildRing(transmit, buffer, byteCount, count, base);
    forall i | 0 <= i < count
      ensures Next(r, base, i) == if i + 1 < count then i + 1 else 0
    {
      ModSmall(i, 1, count);
      var k := (i + 1) % count;
      var link := TagLink(LinkAddress(base, k), FetchMaster(transmit));
      assert link - base == k * LliSize || link - base == k * LliSize + 1;
    }
  }

  /** With the item array at an even address, OR-ing the tag is addition: the
      link is the address of item (i + 1) mod count plus the fetch master. */
  lemma LinkIsTaggedAddress(transmit: bool, buffer: nat, byteCount: nat, count: nat, base: nat, i: nat)
    requires 1 <= count && i < count
    requires base % 2 == 0
    ensures BuildRing(transmit, buffer, byteCount, count, base)[i].clli
         == base + ((i + 1) % count) * LliSize + FetchMaster(transmit)
  {
    var k := (i + 1) % count;
    assert (base + k * LliSize) % 2 == 0;
  }

  /** The index m steps after i in a ring of n items. */
  function Advance(i: nat, m: nat, n: nat): nat
    decreases m
  {
    if m == 0 then i else Advance(if i + 1 < n then i + 1 else 0, m - 1, n)
  }

  /** Following m links from item i of a ring reaches the index m steps
      further on. */
  lemma {:induction false} FollowAround(r: seq<Lli>, base: nat, i: nat, m: nat)
    requires LinksToSuccessor(r, base) && i < |r|
    ensures Follow(r, base, i, m) == Advance(i, m, |r|)
    decreases m
  {
    if m > 0 {
      var j := if i + 1 < |r| then i + 1 else 0;
      assert Next(r, base, i) == j;
      FollowAround(r, base, j, m - 1);
    }
  }

  /** m steps after i is (i + m) mod n. */
  lemma {:induction false} AdvanceIsMod(i: nat, m: nat, n: nat)
    requires i < n
    ensures Advance(i, m, n) == (i + m) % n
    decreases m
  {
    if m > 0 {
      var j := if i + 1 < n then i + 1 else 0;
      AdvanceIsMod(j, m - 1, n);
      ModShift(i, m, n);
    } else {
      ModSmall(i, 0, n);
    }
  }

  /** One step to the successor followed by m - 1 steps is m steps. */
  lemma ModShift(i: nat, m: nat, n: nat)
    requires i < n && m >= 1
    ensures ((if i + 1 < n then i + 1 else 0) + (m - 1)) % n == (i + m) % n
  {
    if i + 1 == n {
      ModAddCycle(m - 1, n);
      assert i + m == (m - 1) + n;
    }
  }

  /** (i + m) mod n for i < n and m <= n, without the division. */
  lemma ModSmall(i: nat, m: nat, n: nat)
    requires i < n && m <= n
    ensures (i + m) % n == if i + m < n then i + m else i + m - n
  {
    if i + m < n {
      DivModUnique(i + m, n, 0, i + m);
    } else {
      DivModUnique(i + m, n, 1, i + m - n);
    }
  }

  /** Adding one full turn does not change the residue. */
  lemma ModAddCycle(x: nat, n: nat)
    requires n >= 1
    ensures (x + n) % n == x % n
  {
    DivModUnique(x + n, n, x / n + 1, x % n);
  }

  /** The quotient and remainder of a division are the only such pair. */
  lemma DivModUnique(a: nat, n: nat, q: nat, r: nat)
    requires n >= 1 && r < n && a == q * n + r
    ensures a / n == q && a % n == r
  {
    var q', r' := a / n, a % n;
    assert a == q' * n + r';
    MulLtCancel(q', q + 1, n);
    MulLtCancel(q, q' + 1, n);
  }

  lemma MulLtCancel(a: int, b: int, n: int)
    requires n > 0 && a * n < b * n
    ensures a < b
  {
  }

  /** Number of forward steps from index i to index j in a ring of n. */
  function Distance(i: nat, j: nat, n: nat): nat
    requires i < n && j < n
  {
    (j + n - i) % n
  }

  /** The links of a built ring form one cycle through all count items:
      following count links from any item returns to it, the first count
      steps visit pairwise different items, and every item j is reached from
      item i after Distance(i, j, count) steps. */
  lemma RingIsSingleCycle(transmit: bool, buffer: nat, byteCount: nat, count: nat, base: nat, i: nat)
    requires 1 <= count && i < count
    ensures var r := BuildRing(transmit, buffer, byteCount, count, base);
      && Follow(r, base, i, count) == i
      && (forall m1, m2 :: 0 <= m1 < m2 < count ==> Follow(r, base, i, m1) != Follow(r, base, i, m2))
      && (forall j :: 0 <= j < count ==> Follow(r, base, i, Distance(i, j, count)) == j)
  {
    var r := BuildRing(transmit, buffer, byteCount, count, base);
    NextOnRing(transmit, buffer, byteCount, count, base);
    FollowAround(r, base, i, count);
    AdvanceIsMod(i, count, count);
    ModSmall(i, count, count);
    forall m1, m2 | 0 <= m1 < m2 < count
      ensures Follow(r, base, i, m1) != Follow(r, base, i, m2)
    {
      FollowAround(r, base, i, m1);
      FollowAround(r, base, i, m2);
      AdvanceIsMod(i, m1, count);
      AdvanceIsMod(i, m2, count);
      ModSmall(i, m1, count);
      ModSmall(i, m2, count);
    }
    forall j | 0 <= j < count
      ensures Follow(r, base, i, Distance(i, j, count)) == j
    {
      var m := Distance(i, j, count);
      ModSmall(j, count - i, count);
      FollowAround(r, base, i, m);
      AdvanceIsMod(i, m, count);
      ModSmall(i, m, count);
    }
  }

  /** No two items of a built ring carry the same link. */
  lemma LinksDistinct(transmit: bool, buffer: nat, byteCount: nat, count: nat, base: nat)
    requires count >= 1
    ensures var r := BuildRing(transmit, buffer, byteCount, count, base);
      forall i, j :: 0 <= i < j < count ==> r[i].clli != r[j].clli
  {
    var r := BuildRing(transmit, buffer, byteCount, count, base);
    NextOnRing(transmit, buffer, byteCount, count, base);
    forall i, j | 0 <= i < j < count
      ensures r[i].clli != r[j].clli
    {
      assert Next(r, base, i) == if i + 1 < count then i + 1 else 0;
      assert Next(r, base, j) == if j + 1 < count then j + 1 else 0;
    }
  }

  // ---------------------------------------------------------------------------
  // Direction, interrupt flag and fixed fields

  /** Roles of the two sides. Transmit: memory is the source (master 1, address
      incrementing) and the SGPIO FIFO the destination (master 0, fixed).
      Receive: the exact mirror. The peripheral address is SS0 for every
      item. */
  lemma DirectionRoles(transmit: bool, buffer: nat, byteCount: nat, count: nat, base: nat, i: nat)
    requires 1 <= count && i < count
    ensures var d := BuildRing(transmit, buffer, byteCount, count, base)[i];
      var memory := buffer + i * SliceBytes(byteCount, count);
      if transmit then
        && d.srcAddr == memory && d.destAddr == SgpioSs0
        && d.control.s == 1 && d.control.d == 0
        && d.control.si == 1 && d.control.di == 0
      else
        && d.srcAddr == SgpioSs0 && d.destAddr == memory
        && d.control.s == 0 && d.control.d == 1
        && d.control.si == 0 && d.control.di == 1
  {
  }

  /** A receive ring and a transmit ring over the same buffer mirror each
      other item by item: addresses swap, masters and increment flags swap,
      the fetch-master tag is complementary, and both link to the same next
      index. */
  lemma DirectionMirror(buffer: nat, byteCount: nat, count: nat, rxBase: nat, txBase: nat, i: nat)
    requires 1 <= count && i < count
    ensures var rx := BuildRing(false, buffer, byteCount, count, rxBase);
      var tx := BuildRing(true, buffer, byteCount, count, txBase);
      && rx[i].srcAddr == tx[i].destAddr
      && rx[i].destAddr == tx[i].srcAddr
      && rx[i].control == tx[i].control.(s := tx[i].control.d, d := tx[i].control.s,
                                         si := tx[i].control.di, di := tx[i].control.si)
      && rx[i].control.si == 1 - tx[i].control.si
      && rx[i].control.di == 1 - tx[i].control.di
      && FetchMaster(false) == 1 - FetchMaster(true)
      && Next(rx, rxBase, i) == Next(tx, txBase, i)
  {
    NextOnRing(false, buffer, byteCount, count, rxBase);
    NextOnRing(true, buffer, byteCount, count, txBase);
  }

  /** The interrupt flag is set exactly on odd indices, so of any two
      neighbouring items exactly one raises the interrupt. */
  lemma InterruptEveryOther(transmit: bool, buffer: nat, byteCount: nat, count: nat, base: nat, i: nat)
    requires 1 <= count && i < count
    ensures var r := BuildRing(transmit, buffer, byteCount, count, base);
      && (r[i].control.interrupt == 1 <==> i % 2 == 1)
      && (r[i].control.interrupt == 0 <==> i % 2 == 0)
      && (i + 1 < count ==> r[i].control.interrupt + r[i + 1].control.interrupt == 1)
  {
  }

  /** The control words of a ring differ only in the interrupt flag, and their
      common fields are fixed: TRANSFERSIZE = byteCount / count / 4, 32-bit
      widths, single-transfer bursts and no protection bits. */
  lemma UniformControl(transmit: bool, buffer: nat, byteCount: nat, count: nat, base: nat, i: nat, j: nat)
    requires 1 <= count && i < count && j < count
    ensures var r := BuildRing(transmit, buffer, byteCount, count, base);
      var c := r[i].control;
      && c.(interrupt := 0) == r[j].control.(interrupt := 0)
      && c.transferSize == byteCount / count / 4
      && c.sWidth == 2 && c.dWidth == 2
      && c.sbSize == 0 && c.dbSize == 0
      && c.prot1 == 0 && c.prot2 == 0 && c.prot3 == 0
  {
  }
}
