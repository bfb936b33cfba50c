/** The DMA programming of the R61520 framebuffer: the read-modify-write
    helpers `setbits`/`clrbits`, the one-time channel set-up
    `sunxi_dma_init`, the channel start `sunxi_dma_start` and the
    transfer-complete handler `dma_irq_handler`. The memory-mapped
    registers are a store the driver reads and writes; every routine
    returns the store after its writes together with the log of writes,
    oldest first, so the order of the writes can be stated. */
module Dma {
  import FbProbe

  /** The driver programs and starts dedicated channels 0 to 3. */
  const DedicatedChannels: nat := 4

  /** The registers of the clock unit and of the DMA block as a whole. */
  datatype BlockReg = BusClkGating0 | BusSoftRst0 | IntCtrl | IntSta

  /** The registers every dedicated DMA channel has. */
  datatype ChannelReg = Cfg | Par | SrcAdr | DesAdr | ByteCnt

  /** The registers the driver touches; `ch` numbers a dedicated channel. */
  datatype Reg = Block(r: BlockReg) | Channel(ch: nat, c: ChannelReg)

  /** One `writel`: a register and the value written to it. */
  datatype Write = Write(reg: Reg, value: bv32)

  datatype BlockRegs = BlockRegs(busClkGating0: bv32, busSoftRst0: bv32, intCtrl: bv32, intSta: bv32)

  datatype ChannelRegs = ChannelRegs(cfg: bv32, par: bv32, srcAdr: bv32, desAdr: bv32, byteCnt: bv32)

  /** Register contents and the writes made so far. */
  datatype Bus = Bus(block: BlockRegs, channels: seq<ChannelRegs>, log: seq<Write>)

  /** The store holds the four dedicated channels. */
  predicate Valid(b: Bus) {
    |b.channels| == DedicatedChannels
  }

  /** Bit 31 of a channel configuration register starts the channel. */
  const ChannelEnable: bv32 := 0x8000_0000
  /** Bit 6 of the bus gating and soft-reset registers is the DMA block. */
  const DmaBusBit: bv32 := 0x40
  const AllOnes: bv32 := 0xffff_ffff
  /** The configuration every channel receives at set-up. */
  const ChannelConfig: bv32 := 0x0229_0201
  /** The interrupt-enable value written once the interrupts are
      acknowledged. */
  const IntEnable: bv32 := 0x00aa_0000
  /** The byte count of every transfer: one whole lram buffer. */
  const TransferBytes: bv32 := 614408

  /** `writel` to a register of the DMA block or the clock unit. */
  function WriteBlock(b: Bus, r: BlockReg, value: bv32): (b': Bus)
    ensures b'.channels == b.channels
    ensures b'.log == b.log + [Write(Block(r), value)]
  {
    var log := b.log + [Write(Block(r), value)];
    match r
    case BusClkGating0 => b.(block := b.block.(busClkGating0 := value), log := log)
    case BusSoftRst0 => b.(block := b.block.(busSoftRst0 := value), log := log)
    case IntCtrl => b.(block := b.block.(intCtrl := value), log := log)
    case IntSta => b.(block := b.block.(intSta := value), log := log)
  }

  /** `writel` to a register of channel `ch`. */
  function WriteChannel(b: Bus, ch: nat, r: ChannelReg, value: bv32): (b': Bus)
    requires ch < |b.channels|
    ensures b'.block == b.block && |b'.channels| == |b.channels|
    ensures forall c | 0 <= c < |b.channels| && c != ch :: b'.channels[c] == b.channels[c]
    ensures b'.log == b.log + [Write(Channel(ch, r), value)]
  {
    var log := b.log + [Write(Channel(ch, r), value)];
    var regs := b.channels[ch];
    var regs' := match r
      case Cfg => regs.(cfg := value)
      case Par => regs.(par := value)
      case SrcAdr => regs.(srcAdr := value)
      case DesAdr => regs.(desAdr := value)
      case ByteCnt => regs.(byteCnt := value);
    b.(channels := b.channels[ch := regs'], log := log)
  }

  /** `setbits`: the value written back for a register read as `read`. */
  function SetBits(read: bv32, mask: bv32): bv32 {
    read | mask
  }

  /** `clrbits`: the value written back for a register read as `read`. */
  function ClrBits(read: bv32, mask: bv32): bv32 {
    read & !mask
  }

  /** `setbits` raises exactly the masked bits: they are all set afterwards
      and every other bit is as read. */
  lemma SetBitsChangesOnlyMask(read: bv32, mask: bv32)
    ensures SetBits(read, mask) & mask == mask
    ensures SetBits(read, mask) & !mask == read & !mask
  {
  }

  /** `clrbits` drops exactly the masked bits: they are all clear afterwards
      and every other bit is as read. */
  lemma ClrBitsChangesOnlyMask(read: bv32, mask: bv32)
    ensures ClrBits(read, mask) & mask == 0
    ensures ClrBits(read, mask) & !mask == read & !mask
  {
  }

  /** Setting bits twice is setting them once. */
  lemma SetBitsIdempotent(v: bv32, mask: bv32)
    ensures SetBits(SetBits(v, mask), mask) == SetBits(v, mask)
  {
  }

  /** Clearing bits that were clear before they were set restores the
      value. */
  lemma ClrBitsUndoesSetBits(v: bv32, mask: bv32)
    requires v & mask == 0
    ensures ClrBits(SetBits(v, mask), mask) == v
  {
  }

  /** Channel `index` is one the driver can start. */
  predicate Startable(index: int) {
    0 <= index < DedicatedChannels
  }

  /** A channel's registers with its enable bit raised. */
  function Enabled(c: ChannelRegs): ChannelRegs {
    c.(cfg := SetBits(c.cfg, ChannelEnable))
  }

  /** `sunxi_dma_start`: acknowledge every pending interrupt, then set the
      enable bit of channel `index` when it is one of channels 0 to 3;
      any other index only acknowledges. */
  function DmaStart(b: Bus, index: int): (b': Bus)
    requires Valid(b)
    ensures Valid(b')
    ensures b'.log == b.log + [Write(Block(IntSta), AllOnes)]
      + (if Startable(index) then [Write(Channel(index, Cfg), b'.channels[index].cfg)] else [])
    ensures b'.block == b.block.(intSta := AllOnes)
    ensures Startable(index) ==> b'.channels[index] == Enabled(b.channels[index])
    ensures forall c | 0 <= c < DedicatedChannels && c != index :: b'.channels[c] == b.channels[c]
  {
    var acked := WriteBlock(b, IntSta, AllOnes);
    if Startable(index) then
      WriteChannel(acked, index, Cfg, SetBits(acked.channels[index].cfg, ChannelEnable))
    else acked
  }

  /** Starting a channel twice leaves the registers as starting it once. */
  lemma DmaStartIdempotent(b: Bus, index: int)
    requires Valid(b)
    ensures DmaStart(DmaStart(b, index), index).block == DmaStart(b, index).block
    ensures DmaStart(DmaStart(b, index), index).channels == DmaStart(b, index).channels
  {
    var once := DmaStart(b, index);
    var twice := DmaStart(once, index);
    if Startable(index) {
      SetBitsIdempotent(b.channels[index].cfg, ChannelEnable);
      assert twice.channels[index] == once.channels[index];
    }
    assert forall c | 0 <= c < DedicatedChannels :: twice.channels[c] == once.channels[c];
  }

  /** `dma_irq_handler`: acknowledge every pending interrupt, then start
      channel 0 again. */
  function IrqHandler(b: Bus): (b': Bus)
    requires Valid(b)
    ensures Valid(b')
    ensures b'.log == b.log + [Write(Block(IntSta), AllOnes), Write(Block(IntSta), AllOnes),
                               Write(Channel(0, Cfg), b'.channels[0].cfg)]
    ensures b'.block == b.block.(intSta := AllOnes)
    ensures b'.channels[0] == Enabled(b.channels[0])
    ensures forall c | 1 <= c < DedicatedChannels :: b'.channels[c] == b.channels[c]
  {
    DmaStart(WriteBlock(b, IntSta, AllOnes), 0)
  }

  /** The handler leaves the registers exactly as a start of channel 0
      does: its extra acknowledgement changes nothing further. */
  lemma IrqHandlerRestartsChannelZero(b: Bus)
    requires Valid(b)
    ensures IrqHandler(b).block == DmaStart(b, 0).block
    ensures IrqHandler(b).channels == DmaStart(b, 0).channels
  {
    assert forall c | 0 <= c < DedicatedChannels :: IrqHandler(b).channels[c] == DmaStart(b, 0).channels[c];
  }

  /** The values set-up leaves in a channel's registers. */
  function SetUpValues(lramPhys: bv32, pdData: bv32): ChannelRegs {
    ChannelRegs(ChannelConfig, 0, lramPhys, pdData, TransferBytes)
  }

  /** The block registers after the first five writes of `sunxi_dma_init`. */
  function BlockAfterInit(block: BlockRegs): BlockRegs {
    BlockRegs(SetBits(block.busClkGating0, DmaBusBit), SetBits(block.busSoftRst0, DmaBusBit), IntEnable, AllOnes)
  }

  /** The five writes of the block set-up, for a block that read as
      `block` beforehand. */
  function BlockWrites(block: BlockRegs): seq<Write> {
    var after := BlockAfterInit(block);
    [Write(Block(BusClkGating0), after.busClkGating0), Write(Block(BusSoftRst0), after.busSoftRst0),
     Write(Block(IntCtrl), 0), Write(Block(IntSta), AllOnes), Write(Block(IntCtrl), IntEnable)]
  }

  /** The first five writes of `sunxi_dma_init`: open the bus clock gate
      and release the reset of the DMA block, then mask its interrupts,
      acknowledge them and enable the transfer-complete ones. */
  method InitBlock(b: Bus) returns (b': Bus)
    requires Valid(b)
    ensures b'.block == BlockAfterInit(b.block) && b'.channels == b.channels
    ensures b'.log == b.log + BlockWrites(b.block)
  {
    b' := WriteBlock(b, BusClkGating0, SetBits(b.block.busClkGating0, DmaBusBit));
    b' := WriteBlock(b', BusSoftRst0, SetBits(b'.block.busSoftRst0, DmaBusBit));
    b' := WriteBlock(b', IntCtrl, 0);
    b' := WriteBlock(b', IntSta, AllOnes);
    b' := WriteBlock(b', IntCtrl, IntEnable);
  }

  /** The five writes that program channel `ch`, in the driver's order. */
  function ChannelWrites(ch: nat, lramPhys: bv32, pdData: bv32): seq<Write> {
    [Write(Channel(ch, Cfg), ChannelConfig), Write(Channel(ch, Par), 0),
     Write(Channel(ch, SrcAdr), lramPhys), Write(Channel(ch, DesAdr), pdData),
     Write(Channel(ch, ByteCnt), TransferBytes)]
  }

  /** Programming one channel sets all its registers and touches no other
      register. */
  method SetUpChannel(b: Bus, ch: nat, lramPhys: bv32, pdData: bv32) returns (b': Bus)
    requires Valid(b) && ch < DedicatedChannels
    ensures b'.block == b.block && b'.channels == b.channels[ch := SetUpValues(lramPhys, pdData)]
    ensures b'.log == b.log + ChannelWrites(ch, lramPhys, pdData)
  {
    b' := WriteChannel(b, ch, Cfg, ChannelConfig);
    b' := WriteChannel(b', ch, Par, 0);
    b' := WriteChannel(b', ch, SrcAdr, lramPhys);
    b' := WriteChannel(b', ch, DesAdr, pdData);
    b' := WriteChannel(b', ch, ByteCnt, TransferBytes);
  }

  /** The writes for channels 0 to 3, in turn. */
  function AllChannelWrites(lramPhys: seq<bv32>, pdData: bv32): seq<Write>
    requires |lramPhys| >= DedicatedChannels
  {
    ChannelWrites(0, lramPhys[0], pdData) + ChannelWrites(1, lramPhys[1], pdData)
    + ChannelWrites(2, lramPhys[2], pdData) + ChannelWrites(3, lramPhys[3], pdData)
  }

  /** `sunxi_dma_init`: the block set-up, then channels 0 to 3 in turn,
      each with the fixed configuration, lram buffer `ch` as source, the
      panel's data port `pdData` as destination and one whole lram buffer
      as byte count. No channel is started. */
  method DmaInit(b: Bus, lramPhys: seq<bv32>, pdData: bv32) returns (b': Bus)
    requires Valid(b) && |lramPhys| == FbProbe.DmaNum
    ensures Valid(b')
    ensures b'.block == BlockAfterInit(b.block)
    ensures b'.channels == [SetUpValues(lramPhys[0], pdData), SetUpValues(lramPhys[1], pdData),
                            SetUpValues(lramPhys[2], pdData), SetUpValues(lramPhys[3], pdData)]
    ensures b'.log == b.log + BlockWrites(b.block) + AllChannelWrites(lramPhys, pdData)
  {
    var b0 := InitBlock(b);
    var b1 := SetUpChannel(b0, 0, lramPhys[0], pdData);
    var b2 := SetUpChannel(b1, 1, lramPhys[1], pdData);
    var b3 := SetUpChannel(b2, 2, lramPhys[2], pdData);
    b' := SetUpChannel(b3, 3, lramPhys[3], pdData);
  }

  /** The transfer byte count is the lram buffer size. */
  lemma TransferBytesIsLramSize()
    ensures TransferBytes as int == FbProbe.LramSize
  {
  }

  /** A channel whose enable bit is clear. */
  predicate Stopped(c: ChannelRegs) {
    c.cfg & ChannelEnable == 0
  }

  /** The DMA part of the probe: set-up, then the start of channel 0.
      Channel 0 ends up set up and enabled, channels 1 to 3 only set up. */
  method ProbeDma(b: Bus, lramPhys: seq<bv32>, pdData: bv32) returns (s: Bus)
    requires Valid(b) && |lramPhys| == FbProbe.DmaNum
    ensures Valid(s)
    ensures s.channels[0] == Enabled(SetUpValues(lramPhys[0], pdData))
    ensures forall ch | 1 <= ch < DedicatedChannels :: s.channels[ch] == SetUpValues(lramPhys[ch], pdData)
  {
    var ready := DmaInit(b, lramPhys, pdData);
    s := DmaStart(ready, 0);
  }

  /** After the probe, channel 0 runs with the set-up configuration,
      sending its lram buffer to the panel's data port, while a channel
      that was only set up stays stopped. */
  lemma ProbeLeavesOnlyChannelZeroRunning(lramPhys: bv32, pdData: bv32)
    ensures Enabled(SetUpValues(lramPhys, pdData)) == ChannelRegs(0x8229_0201, 0, lramPhys, pdData, TransferBytes)
    ensures !Stopped(Enabled(SetUpValues(lramPhys, pdData)))
    ensures Stopped(SetUpValues(lramPhys, pdData))
  {
  }
}
