/** The R61520 panel is driven through an 8080-style parallel bus emulated on
    the port-D pins: every bus cycle is two words written to the pin-data
    register, first with the write strobe low, then with it high. This module
    models the word encoding of `sunxi_lcdc_output` and the frame encoder
    `sunxi_dma_frame`, and the panel-side decoding that inverts them. */
module PinProtocol {
  import opened Bits
  import opened Wrappers

  /** Pins 1..8 carry bits 0..7 of the bus value. */
  const LowByteField: bv32 := 0x0000_01FE
  /** Pins 10..17 carry bits 8..15 of the bus value. */
  const HighByteField: bv32 := 0x0003_FC00
  /** Pin 18: the write strobe, raised in the second word of a cycle. */
  const StrobeBit: bv32 := 0x0004_0000
  /** Pin 19: data (set) or command (clear). */
  const DataBit: bv32 := 0x0008_0000
  /** Pin 20: held high in every word. */
  const IdleBit: bv32 := 0x0010_0000
  /** The panel's "memory write" command that opens a frame. */
  const WriteMemoryStart: bv32 := 0x2c

  /** Every pin a strobe-low word may drive. */
  const DrivenPins: bv32 := LowByteField | HighByteField | DataBit | IdleBit

  /** The bus value as the panel sees it on one word. */
  datatype Transaction = Transaction(isData: bool, value: u16)

  /** Spread a bus value over the pins: the low byte to pins 1..8, the high
      byte to pins 10..17. */
  function Spread(val: bv32): (w: bv32)
    ensures w & !(LowByteField | HighByteField) == 0
  {
    ((val & 0x00ff) << 1) | ((val & 0xff00) << 2)
  }

  /** Reassemble the bus value from the two byte fields of a word. */
  function Gather(w: bv32): u16 {
    ((w >> 1) & 0xff) | (((w >> 10) & 0xff) << 8)
  }

  lemma GatherSpread(val: bv32)
    ensures Gather(Spread(val)) == val & 0xffff
  {
  }

  lemma SpreadGather(w: bv32)
    requires w & !DrivenPins == 0
    ensures Spread(Gather(w)) == w & (LowByteField | HighByteField)
  {
  }

  /** The byte fields do not see the control pins. */
  lemma GatherIgnoresControl(w: bv32, c: bv32)
    requires c & (LowByteField | HighByteField) == 0
    ensures Gather(w | c) == Gather(w)
  {
  }

  /** Panel side: read the data/command pin and reassemble the two byte fields. */
  function Decode(w: bv32): Transaction {
    Transaction(w & DataBit == DataBit, Gather(w))
  }

  /** A strobe-low word of the shape the encoder emits: only the byte fields,
      the data/command pin and pin 20 may be set, and pin 20 is. */
  predicate WellFormed(w: bv32) {
    w & !DrivenPins == 0 && w & IdleBit == IdleBit
  }

  /** The strobe-low word of a bus cycle. */
  function Word(isData: bv32, val: bv32): (w: bv32)
    ensures WellFormed(w) && w & StrobeBit == 0
    ensures (w & DataBit == DataBit) <==> isData != 0
    ensures Decode(w) == Transaction(isData != 0, val & 0xffff)
  {
    var control := (if isData != 0 then DataBit else 0) | IdleBit;
    GatherSpread(val);
    GatherIgnoresControl(Spread(val), control);
    Spread(val) | control
  }

  /** Raising the strobe leaves the decoded transaction alone. */
  lemma StrobeKeepsTransaction(w: bv32)
    ensures Decode(w | StrobeBit) == Decode(w)
  {
    GatherIgnoresControl(w, StrobeBit);
    assert (w | StrobeBit) & DataBit == w & DataBit;
  }

  /** Raising a clear strobe pin changes that pin only. */
  lemma StrobeRaisesOnePin(w: bv32)
    requires w & StrobeBit == 0
    ensures (w | StrobeBit) & StrobeBit == StrobeBit
    ensures (w | StrobeBit) & !StrobeBit == w
  {
  }

  /** The two words `sunxi_lcdc_output(is_data, val)` writes, in order. Only
      the low 16 bits of `val` reach the bus; `is_data` is a C truth value. */
  function Output(isData: bv32, val: bv32): (ws: seq<bv32>)
    ensures |ws| == 2 && ws[0] == Word(isData, val)
    ensures ws[1] == ws[0] | StrobeBit
    ensures Decode(ws[1]) == Decode(ws[0])
  {
    var first := Word(isData, val);
    StrobeKeepsTransaction(first);
    [first, first | StrobeBit]
  }

  /** Every well-formed word is produced by `Output`: the encoding is a
      bijection between bus transactions and well-formed words. */
  lemma OutputCoversWellFormed(w: bv32)
    requires WellFormed(w)
    ensures Output(if Decode(w).isData then 1 else 0, Decode(w).value)[0] == w
  {
    SpreadGather(w);
  }

  /** The two words of one bus cycle carrying `t`. */
  function Encode(t: Transaction): seq<bv32> {
    Output(if t.isData then 1 else 0, t.value)
  }

  /** Panel side of one cycle: a well-formed strobe-low word followed by its
      strobe-high copy is latched as the transaction the first word carries. */
  function DecodeCycle(a: bv32, b: bv32): Option<Transaction> {
    if WellFormed(a) && b == a | StrobeBit then Some(Decode(a)) else None
  }

  /** Decoding a cycle inverts encoding it, in both directions. */
  lemma CycleRoundTrip(t: Transaction)
    ensures |Encode(t)| == 2
    ensures DecodeCycle(Encode(t)[0], Encode(t)[1]) == Some(t)
  {
    LowHalfword(t.value);
  }

  lemma CycleExact(a: bv32)
    requires WellFormed(a)
    ensures Encode(Decode(a)) == [a, a | StrobeBit]
  {
    OutputCoversWellFormed(a);
    assert Encode(Decode(a))[0] == a;
  }

  /** The words of a sequence of bus cycles, in order. */
  function Words(ts: seq<Transaction>): (ws: seq<bv32>)
    ensures |ws| == 2 * |ts|
  {
    if |ts| == 0 then [] else Words(ts[..|ts| - 1]) + Encode(ts[|ts| - 1])
  }

  /** Cycle `i` occupies words `2i` and `2i + 1`. */
  lemma {:induction false} WordsAt(ts: seq<Transaction>, i: nat)
    requires i < |ts|
    ensures Words(ts)[2 * i .. 2 * i + 2] == Encode(ts[i])
    decreases |ts|
  {
    var prefix := Words(ts[..|ts| - 1]);
    assert Words(ts) == prefix + Encode(ts[|ts| - 1]);
    if i < |ts| - 1 {
      WordsAt(ts[..|ts| - 1], i);
      assert Words(ts)[2 * i .. 2 * i + 2] == prefix[2 * i .. 2 * i + 2];
    }
  }

  lemma WordsAppend(ts: seq<Transaction>, t: Transaction)
    ensures Words(ts + [t]) == Words(ts) + Encode(t)
  {
    assert (ts + [t])[..|ts|] == ts;
  }

  /** Panel side of a word stream: split into cycles and decode each. */
  function DecodeWords(ws: seq<bv32>): (r: Option<seq<Transaction>>)
    ensures r.Some? ==> Words(r.value) == ws
    decreases |ws|
  {
    if |ws| == 0 then Some([])
    else if |ws| == 1 then None
    else
      match DecodeCycle(ws[|ws| - 2], ws[|ws| - 1])
      case None => None
      case Some(t) =>
        match DecodeWords(ws[..|ws| - 2])
        case None => None
        case Some(ts) =>
          CycleExact(ws[|ws| - 2]);
          WordsAppend(ts, t);
          assert ws == ws[..|ws| - 2] + [ws[|ws| - 2], ws[|ws| - 1]];
          Some(ts + [t])
  }

  lemma {:induction false} WordsRoundTrip(ts: seq<Transaction>)
    ensures DecodeWords(Words(ts)) == Some(ts)
    decreases |ts|
  {
    if |ts| > 0 {
      var ws := Words(ts);
      var last := Encode(ts[|ts| - 1]);
      assert ws == Words(ts[..|ts| - 1]) + last;
      CycleRoundTrip(ts[|ts| - 1]);
      assert ws[..|ws| - 2] == Words(ts[..|ts| - 1]);
      assert ws[|ws| - 2] == last[0] && ws[|ws| - 1] == last[1];
      WordsRoundTrip(ts[..|ts| - 1]);
      assert ts == ts[..|ts| - 1] + [ts[|ts| - 1]];
    }
  }

  /** The bus cycles of one frame of `total` pixels: the memory-write
      command, then one data cycle per pixel in order. */
  function FrameCycles(src: seq<u16>, total: nat): (ts: seq<Transaction>)
    requires total <= |src|
    ensures |ts| == total + 1
    ensures ts[0] == Transaction(false, WriteMemoryStart)
    ensures forall i | 0 <= i < total :: ts[i + 1] == Transaction(true, src[i])
    decreases total
  {
    if total == 0 then [Transaction(false, WriteMemoryStart)]
    else FrameCycles(src, total - 1) + [Transaction(true, src[total - 1])]
  }

  /** The words `sunxi_dma_frame` writes for `total` pixels. */
  function FrameWords(src: seq<u16>, total: nat): seq<bv32>
    requires total <= |src|
  {
    Words(FrameCycles(src, total))
  }

  /** Frame header: a frame of `total` pixels has `2 + 2 * total` words,
      and words 0 and 1 are the command cycle for 0x2c with the data pin
      clear. This holds for an empty frame as well. */
  lemma FrameHeader(src: seq<u16>, total: nat)
    requires total <= |src|
    ensures |FrameWords(src, total)| == 2 + 2 * total
    ensures FrameWords(src, total)[..2] == Output(0, WriteMemoryStart)
  {
    WordsAt(FrameCycles(src, total), 0);
  }

  /** Frame layout: pixel `i` is the data cycle at words `2 + 2i` and
      `3 + 2i`, after the header. */
  lemma FrameLayout(src: seq<u16>, total: nat, i: nat)
    requires i < total <= |src|
    ensures |FrameWords(src, total)| == 2 + 2 * total
    ensures FrameWords(src, total)[..2] == Output(0, WriteMemoryStart)
    ensures FrameWords(src, total)[2 + 2 * i .. 4 + 2 * i] == Output(1, src[i])
  {
    FrameHeader(src, total);
    WordsAt(FrameCycles(src, total), i + 1);
  }

  /** The frame's cycles depend only on the first `total` pixels. */
  lemma FrameCyclesPrefix(src: seq<u16>, other: seq<u16>, total: nat)
    requires total <= |src| && total <= |other|
    requires forall i | 0 <= i < total :: src[i] == other[i]
    ensures FrameCycles(src, total) == FrameCycles(other, total)
  {
    var a, b := FrameCycles(src, total), FrameCycles(other, total);
    forall i | 0 <= i < |a|
      ensures a[i] == b[i]
    {
      if i > 0 {
        assert a[(i - 1) + 1] == Transaction(true, src[i - 1]);
        assert b[(i - 1) + 1] == Transaction(true, other[i - 1]);
      }
    }
  }

  /** The encoder reads the source only below `total`. */
  lemma FrameReadsOnlyPrefix(src: seq<u16>, other: seq<u16>, total: nat)
    requires total <= |src| && total <= |other|
    requires src[..total] == other[..total]
    ensures FrameWords(src, total) == FrameWords(other, total)
  {
    forall i | 0 <= i < total
      ensures src[i] == other[i]
    {
      assert src[i] == src[..total][i];
    }
    FrameCyclesPrefix(src, other, total);
  }

  /** `sunxi_dma_frame`: the loop that fills a transfer buffer from the pixel
      source. Each iteration writes the same strobe-low word as
      `sunxi_lcdc_output` with the data pin set, then its strobe-high copy. */
  method EncodeFrame(src: seq<u16>, total: u32) returns (dst: seq<bv32>)
    requires total <= |src|
    ensures dst == FrameWords(src, total)
    ensures |dst| == 2 + 2 * total
  {
    var ret := Word(0, WriteMemoryStart);
    dst := [ret];
    ret := ret | StrobeBit;
    dst := dst + [ret];
    var i: nat := 0;
    while i < total
      invariant i <= total
      invariant dst == FrameWords(src, i)
    {
      ret := Word(1, src[i]);
      dst := dst + [ret];
      ret := ret | StrobeBit;
      dst := dst + [ret];
      WordsAppend(FrameCycles(src, i), Transaction(true, src[i]));
      LowHalfword(src[i]);
      i := i + 1;
    }
  }

  /** Panel side of a frame's cycles: a memory-write command followed only
      by data cycles, whose values are the pixels. */
  function ParseFrame(ts: seq<Transaction>): (r: Option<seq<u16>>)
    ensures r.Some? ==> |r.value| + 1 == |ts| && FrameCycles(r.value, |r.value|) == ts
    decreases |ts|
  {
    if |ts| == 0 then None
    else if |ts| == 1 then (if ts[0] == Transaction(false, WriteMemoryStart) then Some([]) else None)
    else if !ts[|ts| - 1].isData then None
    else
      match ParseFrame(ts[..|ts| - 1])
      case None => None
      case Some(px) =>
        var pixels := px + [ts[|ts| - 1].value];
        FrameCyclesPrefix(pixels, px, |px|);
        assert ts == ts[..|ts| - 1] + [ts[|ts| - 1]];
        Some(pixels)
  }

  lemma {:induction false} ParseRoundTrip(src: seq<u16>, total: nat)
    requires total <= |src|
    ensures ParseFrame(FrameCycles(src, total)) == Some(src[..total])
    decreases total
  {
    if total > 0 {
      var ts := FrameCycles(src, total);
      assert ts[..|ts| - 1] == FrameCycles(src, total - 1);
      ParseRoundTrip(src, total - 1);
      assert src[..total] == src[..total - 1] + [src[total - 1]];
    }
  }

  /** Panel side of a whole transfer buffer. */
  function DecodeFrame(ws: seq<bv32>): (r: Option<seq<u16>>)
    ensures r.Some? ==> |ws| == 2 + 2 * |r.value| && FrameWords(r.value, |r.value|) == ws
  {
    match DecodeWords(ws)
    case None => None
    case Some(ts) => ParseFrame(ts)
  }

  /** Decoding an encoded frame gives back exactly the pixels read. */
  lemma FrameRoundTrip(src: seq<u16>, total: nat)
    requires total <= |src|
    ensures DecodeFrame(FrameWords(src, total)) == Some(src[..total])
  {
    WordsRoundTrip(FrameCycles(src, total));
    ParseRoundTrip(src, total);
  }
}
