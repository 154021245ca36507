/** The SGPIO DMA driver: two static rings of four items each over one shared
    buffer, and GPDMA channel 0 armed with one of them at a time. */
module SgpioDma {
  import opened Gpdma
  import opened Ring
  import opened Query

  const RxLliCount: nat := 4
  const TxLliCount: nat := 4

  /** sgpio_dma_enable: stops the channel, clears its pending interrupts,
      loads item 0 of the ring into the live registers, selects the flow
      control for the direction and starts the channel. */
  method Enable(channel: Channel, lli: array<Lli>, transmit: bool)
    requires lli.Length >= 1
    modifies channel
    ensures channel.LoadedFrom(lli[0], transmit)
  {
    channel.Disable();
    channel.InterruptTcClear();
    channel.InterruptErrorClear();

    channel.srcAddr := lli[0].srcAddr;
    channel.destAddr := lli[0].destAddr;
    channel.lli := lli[0].clli;
    channel.control := lli[0].control;

    // 1: memory to peripheral, 2: peripheral to memory
    var flowCntrl := if transmit then 1 else 2;

    channel.config := ChannelConfig(
      e := 0, srcPeripheral := 0, destPeripheral := 0, flowCntrl := flowCntrl,
      ie := 1, itc := 1, l := 0, h := 0);

    channel.Enable();
  }

  /** The driver's process-wide state: the static arrays lli_rx and lli_tx,
      the bus addresses at which they are placed, and the channel
      dma_channel_sgpio. */
  class Driver {
    const lliRx: array<Lli>
    const lliTx: array<Lli>
    const rxBase: nat
    const txBase: nat
    const channel: Channel

    ghost predicate Valid()
      reads this
    {
      lliRx.Length == RxLliCount && lliTx.Length == TxLliCount && lliRx != lliTx
    }

    /** The static storage, before sgpio_dma_init has filled it. */
    constructor (rxBase: nat, txBase: nat)
      ensures Valid()
      ensures this.rxBase == rxBase && this.txBase == txBase
      ensures fresh(lliRx) && fresh(lliTx) && fresh(channel)
    {
      var empty := Lli(0, 0, 0, ZeroControl);
      lliRx := new Lli[RxLliCount](_ => empty);
      lliTx := new Lli[TxLliCount](_ => empty);
      this.rxBase := rxBase;
      this.txBase := txBase;
      channel := new Channel();
    }

    /** sgpio_dma_init: builds the receive ring in lli_rx and the transmit
      ring in lli_tx over the same buffer. */
    method Init(buffer: nat, byteCount: nat)
      requires Valid()
      modifies lliRx, lliTx
      ensures lliRx[..] == BuildRing(false, buffer, byteCount, RxLliCount, rxBase)
      ensures lliTx[..] == BuildRing(true, buffer, byteCount, TxLliCount, txBase)
    {
      ConfigureDmaLli(lliRx, false, buffer, byteCount, rxBase);
      ConfigureDmaLli(lliTx, true, buffer, byteCount, txBase);
    }

    /** sgpio_dma_rx_start: arms the channel with item 0 of the receive ring. */
    method RxStart()
      requires Valid()
      modifies channel
      ensures channel.LoadedFrom(lliRx[0], false)
    {
      Enable(channel, lliRx, false);
    }

    /** sgpio_dma_tx_start: arms the channel with item 0 of the transmit ring. */
    method TxStart()
      requires Valid()
      modifies channel
      ensures channel.LoadedFrom(lliTx[0], true)
    {
      Enable(channel, lliTx, true);
    }

    /** sgpio_dma_irq_tc_acknowledge: clears the terminal-count flag only. */
    method IrqTcAcknowledge()
      modifies channel`tcPending
      ensures !channel.tcPending
    {
      channel.InterruptTcClear();
    }

    /** sgpio_dma_stop: disables the channel and changes nothing else. */
    method Stop()
      modifies channel`config
      ensures channel.config == old(channel.config).(e := 0)
      ensures !channel.Enabled()
    {
      channel.Disable();
    }
  }

  /** Initialising with a 16384-byte buffer and running transmit, stop,
      receive leaves the channel loaded with item 0 of the receive ring: the
      SGPIO FIFO as source, the start of the buffer as destination, 1024
      32-bit transfers per slice, and the position query answering 0. */
  method RestartScenario(buffer: nat, rxBase: nat, txBase: nat)
    returns (src: nat, dest: nat, transfers: nat, flowCntrl: nat, index: nat)
    ensures src == SgpioSs0 && dest == buffer
    ensures transfers == 1024 && flowCntrl == 2 && index == 0
  {
    var dma := new Driver(rxBase, txBase);
    dma.Init(buffer, 16384);
    dma.TxStart();
    dma.Stop();
    dma.RxStart();
    src, dest := dma.channel.srcAddr, dma.channel.destAddr;
    transfers, flowCntrl := dma.channel.control.transferSize, dma.channel.config.flowCntrl;
    index := CurrentTransferIndex(dma.lliRx, RxLliCount, dma.channel.lli);
    QueryOnBuiltRing(false, buffer, 16384, RxLliCount, rxBase, 0);
  }
}
