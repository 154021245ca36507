/** The transfer-position query: sgpio_dma_current_transfer_index looks for
    the first item whose link equals the channel's live CLLI register, with 0
    as the answer when no item matches. */
module Query {
  import opened Gpdma
  import opened Ring

  /** The answer of the search over r[from..]: the first index at or after
      `from` whose link is v, or 0 when there is none. */
  function FirstMatchFrom(r: seq<Lli>, v: nat, from: nat): (k: nat)
    decreases |r| - from
    ensures k == 0 || from <= k < |r|
    ensures (exists j :: from <= j < |r| && r[j].clli == v) <==> (from <= k < |r| && r[k].clli == v)
    ensures from <= k < |r| ==> forall j :: from <= j < k ==> r[j].clli != v
    ensures (forall j :: from <= j < |r| ==> r[j].clli != v) ==> k == 0
  {
    if from >= |r| then 0
    else if r[from].clli == v then from
    else FirstMatchFrom(r, v, from + 1)
  }

  /** The smallest index whose link is v, or 0 when no link is v. */
  function FirstMatch(r: seq<Lli>, v: nat): (k: nat)
    ensures |r| >= 1 ==> k < |r|
    ensures |r| == 0 ==> k == 0
    ensures (exists j :: 0 <= j < |r| && r[j].clli == v) ==>
              k < |r| && r[k].clli == v && forall j :: 0 <= j < k ==> r[j].clli != v
    ensures (forall j :: 0 <= j < |r| ==> r[j].clli != v) ==> k == 0
  {
    FirstMatchFrom(r, v, 0)
  }

  /** sgpio_dma_current_transfer_index: `nextLli` is the value read from the
      channel's CLLI register. Reads lli[0..count) and changes nothing. */
  method CurrentTransferIndex(lli: array<Lli>, count: nat, nextLli: nat) returns (index: nat)
    requires count <= lli.Length
    ensures index == FirstMatch(lli[..count], nextLli)
    ensures count >= 1 ==> index < count
  {
    for i := 0 to count
      invariant FirstMatchFrom(lli[..count], nextLli, i) == FirstMatch(lli[..count], nextLli)
    {
      if lli[i].clli == nextLli {
        return i;
      }
    }
    return 0;
  }

  /** On a ring built by the ring builder, the register value lli[k].clli is
      answered with exactly k: the links are pairwise distinct. */
  lemma QueryOnBuiltRing(transmit: bool, buffer: nat, byteCount: nat, count: nat, base: nat, k: nat)
    requires 1 <= count && k < count
    ensures var r := BuildRing(transmit, buffer, byteCount, count, base);
      FirstMatch(r, r[k].clli) == k
  {
    var r := BuildRing(transmit, buffer, byteCount, count, base);
    LinksDistinct(transmit, buffer, byteCount, count, base);
    var k' := FirstMatch(r, r[k].clli);
    assert k' < count && r[k'].clli == r[k].clli;
  }
}
