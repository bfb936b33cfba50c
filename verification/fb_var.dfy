/** The mode checks of the R61520 framebuffer: `myfb_check_var`, which
    accepts only the panel's fixed 320x240 RGB565 mode and clamps the
    virtual geometry into video memory, and `myfb_setcolreg`, which scales
    colour-map components into a pseudo-palette entry. All fields are the
    kernel's 32-bit unsigned integers. */
module FbVar {
  import opened Bits
  import opened Wrappers

  /** One colour channel of a pixel format. */
  datatype Bitfield = Bitfield(offset: u32, length: u32, msbRight: u32)

  /** The fields of the kernel's variable screen information that the
      driver reads or writes. */
  datatype VarScreenInfo = VarScreenInfo(
    xres: u32, yres: u32,
    xresVirtual: u32, yresVirtual: u32,
    xoffset: u32, yoffset: u32,
    bitsPerPixel: u32,
    red: Bitfield, green: Bitfield, blue: Bitfield, transp: Bitfield)

  datatype Errno = EINVAL

  const PanelWidth: u32 := 320
  const PanelHeight: u32 := 240
  const PanelBpp: u32 := 16

  const Rgb565Red := Bitfield(11, 5, 0)
  const Rgb565Green := Bitfield(5, 6, 0)
  const Rgb565Blue := Bitfield(0, 5, 0)
  const NoTransparency := Bitfield(0, 0, 0)

  /** The mode is the panel's own. */
  predicate IsPanelMode(v: VarScreenInfo) {
    v.xres == PanelWidth && v.yres == PanelHeight && v.bitsPerPixel == PanelBpp
  }

  /** The channel layout `myfb_check_var` installs. */
  predicate IsRgb565(v: VarScreenInfo) {
    v.red == Rgb565Red && v.green == Rgb565Green && v.blue == Rgb565Blue && v.transp == NoTransparency
  }

  /** The visible window lies inside the virtual screen, which fits in
      `vramSize` bytes of video memory, all in unbounded arithmetic. */
  predicate Fits(v: VarScreenInfo, vramSize: nat) {
    && v.xres <= v.xresVirtual
    && v.yres <= v.yresVirtual
    && v.xres + v.xoffset <= v.xresVirtual
    && v.yres + v.yoffset <= v.yresVirtual
    && v.xresVirtual * (v.bitsPerPixel / 8) * v.yresVirtual <= vramSize
  }

  /** Every quantity only shrinks, and the pixel depth stays. */
  predicate Shrinks(v: VarScreenInfo, r: VarScreenInfo) {
    && r.xres <= v.xres && r.yres <= v.yres
    && r.xresVirtual == v.xresVirtual && r.yresVirtual <= v.yresVirtual
    && r.bitsPerPixel == v.bitsPerPixel
  }

  /** The virtual height `myfb_check_var` keeps, as written: the byte size
      `lineSize * yresVirtual` is computed modulo 2^32 before it is
      compared with video memory. */
  function ClampHeightAsWritten(lineSize: u32, yresVirtual: u32, vramSize: u32): (y: u32)
    ensures y <= yresVirtual
    ensures Wrap(lineSize * y) <= vramSize
    ensures Wrap(lineSize * yresVirtual) <= vramSize ==> y == yresVirtual
    ensures lineSize > 0 && Wrap(lineSize * yresVirtual) > vramSize ==> y == vramSize / lineSize
  {
    if Wrap(lineSize * yresVirtual) > vramSize then
      EmptyLinesFit(lineSize, yresVirtual, vramSize);
      var y := LineBudget(vramSize, lineSize);
      BudgetDoesNotWrap(lineSize, y, vramSize);
      y
    else yresVirtual
  }

  /** Lines of zero bytes never overflow video memory. */
  lemma EmptyLinesFit(lineSize: u32, lines: u32, budget: u32)
    requires Wrap(lineSize * lines) > budget
    ensures lineSize > 0
  {
    assert lineSize == 0 ==> lineSize * lines == 0;
  }

  lemma BudgetDoesNotWrap(lineSize: u32, lines: u32, budget: u32)
    requires lines * lineSize <= budget
    ensures Wrap(lineSize * lines) == lineSize * lines <= budget
  {
    assert 0 <= lineSize * lines == lines * lineSize;
  }

  /** The most whole lines of `lineSize` bytes that fit in `budget` bytes. */
  function LineBudget(budget: u32, lineSize: nat): (lines: u32)
    requires lineSize > 0
    ensures lines * lineSize <= budget < (lines + 1) * lineSize
  {
    budget / lineSize
  }

  /** The offset `myfb_check_var` keeps, as written: the sum `res + offset`
      is computed modulo 2^32 before it is compared with the virtual size. */
  function ClampOffsetAsWritten(res: u32, offset: u32, virtual: u32): (o: u32)
    requires res <= virtual
    ensures o <= offset
    ensures Wrap(res + o) <= virtual
    ensures Wrap(res + offset) <= virtual ==> o == offset
    ensures Wrap(res + offset) > virtual ==> o == virtual - res
  {
    if Wrap(res + offset) > virtual then virtual - res else offset
  }

  /** The panel's fixed colour layout over an otherwise unchanged mode. */
  function WithRgb565(v: VarScreenInfo): (r: VarScreenInfo)
    ensures IsRgb565(r)
  {
    v.(red := Rgb565Red, green := Rgb565Green, blue := Rgb565Blue, transp := NoTransparency)
  }

  /** `myfb_check_var` exactly as written: the bound checks are computed in
      32-bit unsigned arithmetic, so a product or sum that passes 2^32 wraps
      before it is compared. */
  function CheckVarAsWritten(v: VarScreenInfo, vramSize: u32): (r: Result<VarScreenInfo, Errno>)
    ensures r.Success? <==> IsPanelMode(v)
    ensures r.Success? ==> IsRgb565(r.value) && Shrinks(v, r.value)
    ensures r.Success? ==> r.value.xres <= r.value.xresVirtual && r.value.yres <= r.value.yresVirtual
    ensures r.Success? ==> Wrap(r.value.xres + r.value.xoffset) <= r.value.xresVirtual
    ensures r.Success? ==> Wrap(r.value.yres + r.value.yoffset) <= r.value.yresVirtual
    ensures r.Success? ==> Wrap(Wrap(r.value.xresVirtual * 2) * r.value.yresVirtual) <= vramSize
    ensures r.Success? ==> r.value.yresVirtual == ClampHeightAsWritten(Wrap(v.xresVirtual * 2), v.yresVirtual, vramSize)
    ensures r.Success? ==> r.value.xres == (if v.xres > v.xresVirtual then v.xresVirtual else v.xres)
    ensures r.Success? ==> r.value.yres == (if v.yres > r.value.yresVirtual then r.value.yresVirtual else v.yres)
    ensures r.Success? ==> r.value.xoffset == ClampOffsetAsWritten(r.value.xres, v.xoffset, v.xresVirtual)
    ensures r.Success? ==> r.value.yoffset == ClampOffsetAsWritten(r.value.yres, v.yoffset, r.value.yresVirtual)
  {
    if !IsPanelMode(v) then Failure(EINVAL)
    else
      var lineSize := Wrap(v.xresVirtual * (v.bitsPerPixel / 8));
      var yresVirtual := ClampHeightAsWritten(lineSize, v.yresVirtual, vramSize);
      var yres := if v.yres > yresVirtual then yresVirtual else v.yres;
      var xres := if v.xres > v.xresVirtual then v.xresVirtual else v.xres;
      var xoffset := ClampOffsetAsWritten(xres, v.xoffset, v.xresVirtual);
      var yoffset := ClampOffsetAsWritten(yres, v.yoffset, yresVirtual);
      Success(WithRgb565(v.(xres := xres, yres := yres, yresVirtual := yresVirtual,
                            xoffset := xoffset, yoffset := yoffset)))
  }

  /** The virtual height with the comparison made on the true byte size. */
  function ClampHeight(lineSize: nat, yresVirtual: u32, vramSize: u32): (y: u32)
    ensures y <= yresVirtual
    ensures lineSize * y <= vramSize
    ensures lineSize * yresVirtual <= vramSize ==> y == yresVirtual
    ensures lineSize > 0 && lineSize * yresVirtual > vramSize ==> y == vramSize / lineSize
  {
    if lineSize * yresVirtual > vramSize then
      var y := LineBudget(vramSize, lineSize);
      assert lineSize * y == y * lineSize;
      y
    else yresVirtual
  }

  /** The offset with the comparison made on the true sum. */
  function ClampOffset(res: u32, offset: u32, virtual: u32): (o: u32)
    requires res <= virtual
    ensures o <= offset
    ensures res + o <= virtual
    ensures res + offset <= virtual ==> o == offset
    ensures res + offset > virtual ==> o == virtual - res
  {
    if res + offset > virtual then virtual - res else offset
  }

  /** `myfb_check_var` with the bound checks it evidently intends: the same
      decisions, but every product and sum compared without wrapping. */
  function CheckVar(v: VarScreenInfo, vramSize: u32): (r: Result<VarScreenInfo, Errno>)
    ensures r.Success? <==> IsPanelMode(v)
    ensures r.Success? ==> IsRgb565(r.value) && Shrinks(v, r.value) && Fits(r.value, vramSize)
    ensures r.Success? ==> r.value.yresVirtual == ClampHeight(v.xresVirtual * 2, v.yresVirtual, vramSize)
    ensures r.Success? ==> r.value.xres == (if v.xres > v.xresVirtual then v.xresVirtual else v.xres)
    ensures r.Success? ==> r.value.yres == (if v.yres > r.value.yresVirtual then r.value.yresVirtual else v.yres)
    ensures r.Success? ==> r.value.xoffset == ClampOffset(r.value.xres, v.xoffset, v.xresVirtual)
    ensures r.Success? ==> r.value.yoffset == ClampOffset(r.value.yres, v.yoffset, r.value.yresVirtual)
  {
    if !IsPanelMode(v) then Failure(EINVAL)
    else
      var lineSize := v.xresVirtual * (v.bitsPerPixel / 8);
      var yresVirtual := ClampHeight(lineSize, v.yresVirtual, vramSize);
      var yres := if v.yres > yresVirtual then yresVirtual else v.yres;
      var xres := if v.xres > v.xresVirtual then v.xresVirtual else v.xres;
      var xoffset := ClampOffset(xres, v.xoffset, v.xresVirtual);
      var yoffset := ClampOffset(yres, v.yoffset, yresVirtual);
      Success(WithRgb565(v.(xres := xres, yres := yres, yresVirtual := yresVirtual,
                            xoffset := xoffset, yoffset := yoffset)))
  }

  /** A mode that already fits comes back with only its colour layout set. */
  lemma CheckVarKeepsFittingMode(v: VarScreenInfo, vramSize: u32)
    requires IsPanelMode(v) && Fits(v, vramSize)
    ensures CheckVar(v, vramSize) ==
      Success(v.(red := Rgb565Red, green := Rgb565Green, blue := Rgb565Blue, transp := NoTransparency))
  {
  }

  /** Checking an accepted mode again changes nothing, as long as clamping
      kept the panel's resolution. */
  lemma CheckVarIdempotent(v: VarScreenInfo, vramSize: u32)
    requires CheckVar(v, vramSize).Success?
    requires IsPanelMode(CheckVar(v, vramSize).value)
    ensures CheckVar(CheckVar(v, vramSize).value, vramSize) == CheckVar(v, vramSize)
  {
    CheckVarKeepsFittingMode(CheckVar(v, vramSize).value, vramSize);
  }

  /** Where the two versions agree: when no intermediate value reaches 2^32
      the code as written already computes the intended result. */
  lemma CheckVarAgreesWithoutOverflow(v: VarScreenInfo, vramSize: u32)
    requires v.xresVirtual * 2 < Two32 && v.xresVirtual * 2 * v.yresVirtual < Two32
    requires v.xres + v.xoffset < Two32 && v.yres + v.yoffset < Two32
    ensures CheckVarAsWritten(v, vramSize) == CheckVar(v, vramSize)
  {
    if IsPanelMode(v) {
      var lineSize := v.xresVirtual * 2;
      ClampHeightAgrees(lineSize, v.yresVirtual, vramSize);
      var y := ClampHeight(lineSize, v.yresVirtual, vramSize);
      var yres := if v.yres > y then y else v.yres;
      var xres := if v.xres > v.xresVirtual then v.xresVirtual else v.xres;
      ClampOffsetAgrees(xres, v.xoffset, v.xresVirtual);
      ClampOffsetAgrees(yres, v.yoffset, y);
    }
  }

  lemma ClampHeightAgrees(lineSize: u32, yresVirtual: u32, vramSize: u32)
    requires lineSize * yresVirtual < Two32
    ensures ClampHeightAsWritten(lineSize, yresVirtual, vramSize) == ClampHeight(lineSize, yresVirtual, vramSize)
  {
  }

  lemma ClampOffsetAgrees(res: u32, offset: u32, virtual: u32)
    requires res <= virtual && res + offset < Two32
    ensures ClampOffsetAsWritten(res, offset, virtual) == ClampOffset(res, offset, virtual)
  {
  }

  /** `CNVT_TOHW(val, width)`: scale a 16-bit colour-map component to
      `width` bits, rounding, in 32-bit unsigned arithmetic. */
  function CnvtToHw(val: bv32, width: u32): (r: bv32)
    requires width < 32
    ensures val <= 0xffff && width == 5 ==> r < 32
    ensures val <= 0xffff && width == 6 ==> r < 64
  {
    ((val << width) + 0x7FFF - val) >> 16
  }

  /** For the RGB565 widths the scaled component fits its field, and the
      scale maps black to 0 and full intensity to all ones. */
  lemma CnvtToHwFits(val: bv32)
    requires val <= 0xffff
    ensures CnvtToHw(val, 5) < 32 && CnvtToHw(val, 6) < 64
    ensures CnvtToHw(0, 5) == 0 && CnvtToHw(0xffff, 5) == 31
    ensures CnvtToHw(0, 6) == 0 && CnvtToHw(0xffff, 6) == 63
  {
  }

  /** The pseudo-palette entry `myfb_setcolreg` stores: each component
      scaled to its channel width and shifted to its channel offset. */
  function PaletteEntry(red: bv32, green: bv32, blue: bv32, v: VarScreenInfo): (e: bv32)
    requires v.red.length < 32 && v.green.length < 32 && v.blue.length < 32
    requires v.red.offset < 32 && v.green.offset < 32 && v.blue.offset < 32
    ensures IsRgb565(v) && red <= 0xffff && green <= 0xffff && blue <= 0xffff ==>
      && e <= 0xffff
      && e >> 11 == CnvtToHw(red, 5)
      && (e >> 5) & 0x3f == CnvtToHw(green, 6)
      && e & 0x1f == CnvtToHw(blue, 5)
  {
    if IsRgb565(v) && red <= 0xffff && green <= 0xffff && blue <= 0xffff then
      CnvtToHwFits(red);
      CnvtToHwFits(green);
      CnvtToHwFits(blue);
      Rgb565Pack(CnvtToHw(red, 5), CnvtToHw(green, 6), CnvtToHw(blue, 5));
      (CnvtToHw(red, 5) << 11) | (CnvtToHw(green, 6) << 5) | (CnvtToHw(blue, 5) << 0)
    else
      (CnvtToHw(red, v.red.length) << v.red.offset)
      | (CnvtToHw(green, v.green.length) << v.green.offset)
      | (CnvtToHw(blue, v.blue.length) << v.blue.offset)
  }

  /** Packing three in-range fields at offsets 11, 5 and 0 is lossless. */
  lemma Rgb565Pack(r: bv32, g: bv32, b: bv32)
    requires r < 32 && g < 64 && b < 32
    ensures var e := (r << 11) | (g << 5) | (b << 0);
      e <= 0xffff && e >> 11 == r && (e >> 5) & 0x3f == g && e & 0x1f == b
  {
  }

  /** Number of entries in the driver's pseudo-palette. */
  const PseudoPaletteSize: nat := 16

  /** The store `myfb_setcolreg` performs: entry `index` of the
      pseudo-palette receives `value`. */
  datatype PaletteStore = PaletteStore(index: u32, value: bv32)

  /** `myfb_setcolreg` as written: the store goes to `regno` with no bound
      check against the 16-entry pseudo-palette. */
  function SetColRegAsWritten(regno: u32, red: bv32, green: bv32, blue: bv32, transp: bv32, v: VarScreenInfo): (s: PaletteStore)
    requires v.red.length < 32 && v.green.length < 32 && v.blue.length < 32
    requires v.red.offset < 32 && v.green.offset < 32 && v.blue.offset < 32
    ensures s.index == regno
    ensures IsRgb565(v) && red <= 0xffff && green <= 0xffff && blue <= 0xffff ==>
      && s.value <= 0xffff
      && s.value >> 11 == CnvtToHw(red, 5)
      && (s.value >> 5) & 0x3f == CnvtToHw(green, 6)
      && s.value & 0x1f == CnvtToHw(blue, 5)
  {
    PaletteStore(regno, PaletteEntry(red, green, blue, v))
  }

  /** `myfb_setcolreg` with the bound check the 16-entry pseudo-palette
      needs: an index past it is refused and the palette left alone. */
  function SetColReg(regno: u32, red: bv32, green: bv32, blue: bv32, transp: bv32, v: VarScreenInfo,
                     palette: seq<bv32>): (r: Result<seq<bv32>, Errno>)
    requires |palette| == PseudoPaletteSize
    requires v.red.length < 32 && v.green.length < 32 && v.blue.length < 32
    requires v.red.offset < 32 && v.green.offset < 32 && v.blue.offset < 32
    ensures r.Success? <==> regno < PseudoPaletteSize
    ensures r.Success? ==> |r.value| == PseudoPaletteSize && r.value[regno] == PaletteEntry(red, green, blue, v)
    ensures r.Success? ==> forall i | 0 <= i < PseudoPaletteSize && i != regno :: r.value[i] == palette[i]
  {
    if regno < PseudoPaletteSize then
      var s := SetColRegAsWritten(regno, red, green, blue, transp, v);
      Success(palette[s.index := s.value])
    else Failure(EINVAL)
  }
}
