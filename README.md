# SGPIO DMA control layer, modelled in Dafny

HackRF streams samples between the LPC43xx SGPIO peripheral and a memory
buffer through general-purpose DMA (GPDMA) channel 0. The control layer in
`firmware/common/sgpio_dma.c` does three things, and this project models
all three:

- It builds two rings of four linked-list items (LLIs): `lli_rx` for
  receive and `lli_tx` for transmit. Each item moves one slice of the shared
  buffer. Its link points to the next item, so the DMA engine cycles through
  the buffer on its own.
- It arms the channel with item 0 of one ring, and it stops the channel and
  acknowledges its terminal-count interrupt.
- It answers which slice the engine is working on, by looking up the
  channel's live CLLI register among the items' links.

Files:

- `gpdma.dfy` (module `Gpdma`): the LLI record and the CCONTROL and CCONFIG
  words as records with one field per register field. Also the class
  `Channel`, which holds one channel's registers and interrupt-status bits,
  with the four primitives the driver calls (disable, enable, clear
  terminal-count and clear error). Each primitive changes only what its frame
  names.
- `ring.dfy` (module `Ring`): `configure_dma_lli` as the in-place method
  `ConfigureDmaLli`. It is specified by the pure function `BuildRing`, and
  lemmas about `BuildRing` state the properties of the ring.
- `query.dfy` (module `Query`): `sgpio_dma_current_transfer_index` as the
  read-only loop `CurrentTransferIndex`. It is specified by the pure search
  function `FirstMatch`.
- `sgpio_dma.dfy` (module `SgpioDma`): `sgpio_dma_enable` and the class
  `Driver`. `Driver` holds the two static rings and the channel, and has
  `Init`, `RxStart`, `TxStart`, `IrqTcAcknowledge` and `Stop`. The file ends
  with a client method that runs the restart scenario.

How the model represents what the C code does with pointers:

- Addresses are natural numbers.
- An array of items sits at a bus address `base`, and the address of item
  `k` is `base + k * 16`. The constructor of `Driver` takes the bus
  addresses of the two static arrays.
- The link `&lli[k] | fetch_master` is `TagLink`, an OR of bit 0. When
  `base` is even this OR equals addition (`LinkIsTaggedAddress`). The other
  link properties hold for any `base`.
- The SGPIO FIFO address `&SGPIO_REG_SS(0)` is the constant `SgpioSs0`. Its
  value is left open.

Where the design description and the code disagree, the model follows the
code:

- The design says a byte count that does not divide evenly into
  `count * 4`-byte slices must be rejected. The code has no such check: it
  truncates both divisions. `TransferSize` truncates in the same way.
  `CoveredPrefix` shows the slices never run past the buffer and leave fewer
  than `count * 4` bytes unused. `ExactCover` shows the division is exact
  when the byte count is a multiple of `count * 4`.
- The design says the descriptor-fetch master is the memory-side master in
  both directions. The code tags transmit links with master 0 and receive
  links with master 1 (sgpio_dma.c:49). That is the destination master in
  both directions. `FetchMaster` follows the code.

## Model

| member | source | states |
|---|---|---|
| `Ring.ConfigureDmaLli` | firmware/common/sgpio_dma.c:32-71 | after the loop the whole array equals `BuildRing` of the direction, buffer, byte count, item count and array address |
| `Ring.TagLink` | firmware/common/sgpio_dma.c:54 | OR-ing a one-bit tag keeps every bit above bit 0 and sets bit 0 exactly when the tag is 1 (otherwise bit 0 stays as it was) |
| `Ring.SliceLayout` | firmware/common/sgpio_dma.c:39-53 | item i's memory-side address is `buffer + i * slice_bytes`, it moves `slice_bytes` bytes, and its peripheral-side address is the SGPIO FIFO |
| `Ring.SlicesContiguous` | firmware/common/sgpio_dma.c:41-45 | each slice ends exactly where the next one begins (no gap) |
| `Ring.SlicesDisjoint` | firmware/common/sgpio_dma.c:41-45 | for i < j, slice i ends at or before the start of slice j, so slices ascend and do not overlap |
| `Ring.CoveredPrefix` | firmware/common/sgpio_dma.c:39-41 | the slices cover at most `byte_count` bytes, and the truncated remainder is fewer than `count * 4` bytes |
| `Ring.ExactCover` | firmware/common/sgpio_dma.c:39-41 | when `count * 4` divides `byte_count`, the slices cover the buffer exactly |
| `Ring.SlicesInsideBuffer` | firmware/common/sgpio_dma.c:39-45 | every slice starts at or after `buffer` and ends at or before `buffer + byte_count` |
| `Ring.NextOnRing` | firmware/common/sgpio_dma.c:43-54 | ignoring the tag bit, every item of a built ring links to item `(i + 1) mod count` |
| `Ring.LinkIsTaggedAddress` | firmware/common/sgpio_dma.c:49-54 | when the array address is even, link i equals the address of item `(i + 1) mod count` plus the fetch master (0 for transmit, 1 for receive) |
| `Ring.FollowAround` | firmware/common/sgpio_dma.c:54 | in any ring whose items link to their successors (the last to item 0), following m links from item i reaches the index m successor steps further on |
| `Ring.AdvanceIsMod` | firmware/common/sgpio_dma.c:54 | m successor steps from index i in a ring of n items land on `(i + m) mod n` |
| `Ring.RingIsSingleCycle` | firmware/common/sgpio_dma.c:43-54 | following `count` links returns to the start, the first `count` steps visit pairwise different items, and every item is reached |
| `Ring.LinksDistinct` | firmware/common/sgpio_dma.c:54 | no two items of a built ring hold the same link value |
| `Ring.DirectionRoles` | firmware/common/sgpio_dma.c:44-53 | transmit: memory source, SGPIO destination, S = 1, D = 0, SI = 1, DI = 0; receive: SGPIO source, memory destination, S = 0, D = 1, SI = 0, DI = 1 |
| `Ring.DirectionMirror` | firmware/common/sgpio_dma.c:47-64 | item by item, a receive ring and a transmit ring over the same buffer swap source and destination, swap the S/D masters and the SI/DI flags, have complementary fetch masters, and link to the same next index |
| `Ring.InterruptEveryOther` | firmware/common/sgpio_dma.c:50-68 | `I` is 1 exactly on odd indices and 0 exactly on even ones, so of two neighbouring items exactly one interrupts |
| `Ring.UniformControl` | firmware/common/sgpio_dma.c:40-67 | all control words of a ring agree except for `I`; TRANSFERSIZE = `byte_count / count / 4`, SWIDTH = DWIDTH = 2, SBSIZE = DBSIZE = 0, PROT1-3 = 0 |
| `Query.FirstMatchFrom` | firmware/common/sgpio_dma.c:145-150 | the search from index `from` returns 0 or an index in range; it returns a matching index exactly when a match exists; no earlier index matches; and it returns 0 when nothing matches |
| `Query.FirstMatch` | firmware/common/sgpio_dma.c:140-151 | the result is below `count` when `count >= 1`; when some link equals the register value, it is the smallest such index; otherwise it is 0 |
| `Query.CurrentTransferIndex` | firmware/common/sgpio_dma.c:140-151 | the loop with early return computes `FirstMatch` of the first `count` items, is below `count` when `count >= 1`, and modifies nothing |
| `Query.QueryOnBuiltRing` | firmware/common/sgpio_dma.c:140-151 | on a built ring, a register value equal to `lli[k].clli` is answered with exactly `k` |
| `Gpdma.Channel.Disable` | firmware/common/sgpio_dma.c:74 | clears the channel's E bit and changes no other register |
| `Gpdma.Channel.Enable` | firmware/common/sgpio_dma.c:98 | sets the channel's E bit and changes no other register |
| `Gpdma.Channel.InterruptTcClear` | firmware/common/sgpio_dma.c:75 | clears only the channel's terminal-count flag |
| `Gpdma.Channel.InterruptErrorClear` | firmware/common/sgpio_dma.c:76 | clears only the channel's error flag |
| `SgpioDma.Enable` | firmware/common/sgpio_dma.c:73-99 | afterwards SRCADDR, DESTADDR, CLLI and CCONTROL equal item 0's fields; FLOWCNTRL is 1 for transmit and 2 for receive; IE = ITC = 1, L = H = 0, SRC/DESTPERIPHERAL = 0; both flags are clear and the channel is enabled, whatever it held before |
| `SgpioDma.Driver.constructor` | firmware/common/sgpio_dma.c:104-105 | two distinct static arrays of four items each, at the given bus addresses |
| `SgpioDma.Driver.Init` | firmware/common/sgpio_dma.c:107-110 | `lli_rx` holds the receive ring and `lli_tx` the transmit ring over the same buffer and byte count |
| `SgpioDma.Driver.RxStart` | firmware/common/sgpio_dma.c:124-126 | the channel is armed with `lli_rx[0]` for receive |
| `SgpioDma.Driver.TxStart` | firmware/common/sgpio_dma.c:128-130 | the channel is armed with `lli_tx[0]` for transmit |
| `SgpioDma.Driver.IrqTcAcknowledge` | firmware/common/sgpio_dma.c:132-134 | clears the terminal-count flag; its frame leaves every other register and both rings unchanged |
| `SgpioDma.Driver.Stop` | firmware/common/sgpio_dma.c:136-138 | clears E only; the other configuration fields, every other register and both rings are unchanged |
| `SgpioDma.RestartScenario` | firmware/common/sgpio_dma.c:107-130 | with a 16384-byte buffer, transmit, stop, receive leaves source = SGPIO FIFO, destination = buffer, 1024 transfers, FLOWCNTRL = 2, and the position query answers 0 |

## Left out

- DMAMUX routing and controller enable (sgpio_dma.c:112-113, 119): these are read-modify-write accesses to CREG and the controller through library macros whose encodings are not part of this model.
- The commented-out sync configuration (sgpio_dma.c:115-117) is dead code.
- Bit packing of the `GPDMA_CCONTROL_*` and `GPDMA_CCONFIG_*` fields is not modelled. The words are records, so a TRANSFERSIZE above what its 12-bit field holds is not detected.
- Addresses and `size_t` values are unbounded naturals. The `uint32_t` casts and any 32-bit wrap-around of `buffer + offset` are not modelled.
- The DMA engine walking the ring on its own is not modelled. So is the race between the engine and the single volatile read of CLLI. The value read is the parameter `nextLli` of `CurrentTransferIndex`.
- The real address of `SGPIO_REG_SS(0)` is not modelled: it is the open constant `SgpioSs0`. The addresses of `lli_rx` and `lli_tx` are not modelled either: they are parameters of the `Driver` constructor.
- Ring.ConfigureDmaLli: the item count is the array's length, not a separate `lli_count`. It must be at least 1, because the C code divides by it.
- The channel number argument is not modelled: the model has one `Channel` object, which stands for `dma_channel_sgpio` (channel 0).
- The terminal-count and error flags are kept per channel, not as bits of the controller-wide status registers. The read-only CCONFIG fields (A, the active bit) are not modelled.
