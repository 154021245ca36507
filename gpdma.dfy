/** The parts of the LPC43xx general-purpose DMA controller (GPDMA) that the
    SGPIO streaming path touches: linked-list items, the channel control and
    configuration words as structured records, and one channel's registers. */
module Gpdma {

  /** Size in bytes of one linked-list item: four 32-bit words. */
  const LliSize: nat := 16

  /** Bus address of the SGPIO shadow register SS0, the peripheral-side FIFO.
      Its value plays no role in any property, so it is left open. */
  const SgpioSs0: nat

  /** The fields of a CCONTROL word, one record field per register field. */
  datatype ControlWord = ControlWord(
    transferSize: nat,  // TRANSFERSIZE: number of transfers in this slice
    sbSize: nat,        // SBSIZE: source burst size code
    dbSize: nat,        // DBSIZE: destination burst size code
    sWidth: nat,        // SWIDTH: source transfer width code (2 = 32 bits)
    dWidth: nat,        // DWIDTH: destination transfer width code
    s: nat,             // S: AHB master used for the source
    d: nat,             // D: AHB master used for the destination
    si: nat,            // SI: source address increments
    di: nat,            // DI: destination address increments
    prot1: nat,         // PROT1..PROT3: bus protection bits
    prot2: nat,
    prot3: nat,
    interrupt: nat      // I: raise the terminal-count interrupt after this item
  )

  const ZeroControl := ControlWord(0, 0, 0, 0, 0, 0, 0, 0, 0, 0, 0, 0, 0)

  /** One linked-list item (gpdma_lli_t). `clli` is the address of the next
      item with the fetch-master tag in bit 0. */
  datatype Lli = Lli(srcAddr: nat, destAddr: nat, clli: nat, control: ControlWord)

  /** The fields of a CCONFIG word. */
  datatype ChannelConfig = ChannelConfig(
    e: nat,               // E: channel enabled
    srcPeripheral: nat,   // SRCPERIPHERAL: source request line
    destPeripheral: nat,  // DESTPERIPHERAL: destination request line
    flowCntrl: nat,       // FLOWCNTRL: 1 = memory to peripheral, 2 = peripheral to memory
    ie: nat,              // IE: error interrupt unmasked
    itc: nat,             // ITC: terminal-count interrupt unmasked
    l: nat,               // L: locked transfers
    h: nat                // H: halt
  )

  const ZeroConfig := ChannelConfig(0, 0, 0, 0, 0, 0, 0, 0)

  /** The registers and interrupt status bits of one GPDMA channel. */
  class Channel {
    var tcPending: bool       // this channel's bit of the terminal-count status
    var errPending: bool      // this channel's bit of the error status
    var srcAddr: nat          // CSRCADDR
    var destAddr: nat         // CDESTADDR
    var lli: nat              // CLLI: the next linked-list item to fetch
    var control: ControlWord  // CCONTROL
    var config: ChannelConfig // CCONFIG

    /** The channel as it comes out of reset: every register zero. */
    constructor ()
      ensures !tcPending && !errPending
      ensures srcAddr == 0 && destAddr == 0 && lli == 0
      ensures control == ZeroControl && config == ZeroConfig
    {
      tcPending, errPending := false, false;
      srcAddr, destAddr, lli := 0, 0, 0;
      control, config := ZeroControl, ZeroConfig;
    }

    predicate Enabled()
      reads this
    {
      config.e == 1
    }

    /** gpdma_channel_disable: clears E and nothing else. */
    method Disable()
      modifies this`config
      ensures config == old(config).(e := 0)
      ensures !Enabled()
    {
      config := config.(e := 0);
    }

    /** gpdma_channel_enable: sets E and nothing else. */
    method Enable()
      modifies this`config
      ensures config == old(config).(e := 1)
      ensures Enabled()
    {
      config := config.(e := 1);
    }

    /** gpdma_channel_interrupt_tc_clear */
    method InterruptTcClear()
      modifies this`tcPending
      ensures !tcPending
    {
      tcPending := false;
    }

    /** gpdma_channel_interrupt_error_clear */
    method InterruptErrorClear()
      modifies this`errPending
      ensures !errPending
    {
      errPending := false;
    }

    /** The channel is armed with item `d` in the given direction: the live
        registers hold `d`, no interrupt is pending, the configuration selects
        the direction's flow control with both interrupts unmasked, and the
        channel runs. Nothing here depends on what the channel held before. */
    predicate LoadedFrom(d: Lli, transmit: bool)
      reads this
    {
      && srcAddr == d.srcAddr
      && destAddr == d.destAddr
      && lli == d.clli
      && control == d.control
      && !tcPending && !errPending
      && config == ChannelConfig(
           e := 1, srcPeripheral := 0, destPeripheral := 0,
           flowCntrl := if transmit then 1 else 2,
           ie := 1, itc := 1, l := 0, h := 0)
    }
  }
}
