/** The buffer sizes `myfb_probe` allocates, and why they are large enough
    for what the encoder and the mode check let through. */
module FbProbe {
  import opened Bits
  import opened Wrappers
  import opened FbVar
  import PinProtocol

  const PageSize: nat := 4096
  /** Number of encoded-frame (lram) buffers the probe allocates. */
  const DmaNum: nat := 8
  /** Size in bytes of the palette buffer, and entries of the colour map. */
  const PaletteSize: nat := 256
  /** The colour-map length the probe sets after allocating it. */
  const CmapLen: nat := 32

  /** Greatest common divisor, by Euclid's algorithm. */
  function Gcd(a: nat, b: nat): (g: nat)
    decreases b
    ensures a > 0 || b > 0 ==> g > 0
    ensures g > 0 ==> a % g == 0 && b % g == 0
  {
    if b == 0 then a
    else
      var g := Gcd(b, a % b);
      DividesCombination(a, b, g);
      g
  }

  /** Bezout's identity: the greatest common divisor is an integer
      combination of the two inputs. */
  lemma {:induction false} Bezout(a: nat, b: nat) returns (x: int, y: int)
    decreases b
    ensures Gcd(a, b) == x * a + y * b
  {
    if b == 0 {
      x, y := 1, 0;
    } else {
      var x', y' := Bezout(b, a % b);
      var q := a / b;
      assert a % b == a - q * b;
      Regroup(a, b, q, x', y');
      x, y := y', x' - y' * q;
    }
  }

  /** The Euclid step of Bezout's identity, as algebra. */
  lemma Regroup(a: int, b: int, q: int, x: int, y: int)
    ensures x * b + y * (a - q * b) == y * a + (x - y * q) * b
  {
    assert y * (a - q * b) == y * a - (y * q) * b;
    assert (x - y * q) * b == x * b - (y * q) * b;
  }

  /** A positive multiple of a positive `d` is at least `d`. */
  lemma PositiveMultiple(d: int, k: int)
    requires d > 0 && d * k > 0
    ensures k >= 1 && d * k >= d
  {
    assert d * k - d == d * (k - 1);
  }

  /** `Gcd` is the greatest of the common divisors. */
  lemma GcdGreatest(a: nat, b: nat, d: nat)
    requires a > 0 || b > 0
    requires d > 0 && a % d == 0 && b % d == 0
    ensures d <= Gcd(a, b)
  {
    var x, y := Bezout(a, b);
    var i := Quotient(a, d);
    var j := Quotient(b, d);
    Factor(d, i, j, x, y);
    PositiveMultiple(d, x * i + y * j);
  }

  /** A remainder-free division gives the exact quotient. */
  lemma Quotient(n: nat, d: nat) returns (q: int)
    requires d > 0 && n % d == 0
    ensures n == d * q
  {
    q := n / d;
  }

  /** A combination of two multiples of `d` is a multiple of `d`. */
  lemma Factor(d: int, i: int, j: int, x: int, y: int)
    ensures x * (d * i) + y * (d * j) == d * (x * i + y * j)
  {
    assert x * (d * i) == d * (x * i);
    assert y * (d * j) == d * (y * j);
  }

  /** If `g` divides `b` and `a % b`, it divides `a`. */
  lemma DividesCombination(a: nat, b: nat, g: nat)
    requires b > 0 && g > 0 && b % g == 0 && (a % b) % g == 0
    ensures a % g == 0
  {
    var q := a / b;
    var k := b / g;
    var m := (a % b) / g;
    assert a == q * b + a % b;
    assert b == k * g;
    assert a % b == m * g;
    assert q * b == q * (k * g) == (q * k) * g;
    assert a == (q * k + m) * g;
    MultipleMod(q * k + m, g);
  }

  /** A multiple of `g` leaves no remainder. */
  lemma MultipleMod(n: nat, g: nat)
    requires g > 0
    ensures (n * g) % g == 0
  {
    var q: int := (n * g) / g;
    var d: int := n - q;
    assert d * g == (n * g) % g;
    assert d >= 1 ==> d * g >= g;
    assert d <= -1 ==> d * g <= 0 - g;
  }

  /** Least common multiple. */
  function Lcm(a: nat, b: nat): (l: nat)
    requires a > 0 && b > 0
    ensures l > 0 && l % a == 0 && l % b == 0
    ensures l * Gcd(a, b) == a * b
  {
    var g := Gcd(a, b);
    var ka := a / g;
    var kb := b / g;
    assert a == ka * g && b == kb * g;
    assert ka > 0;
    assert ka * b == ka * (kb * g) == kb * (ka * g) == kb * a;
    MultipleMod(kb, a);
    MultipleMod(ka, b);
    assert ka * b > 0;
    ProductIsLcmTimesGcd(a, b, g, ka, ka * b);
    ka * b
  }

  /** `Lcm` is the least of the positive common multiples. */
  lemma LcmLeast(a: nat, b: nat, m: nat)
    requires a > 0 && b > 0
    requires m > 0 && m % a == 0 && m % b == 0
    ensures Lcm(a, b) <= m
  {
    var g := Gcd(a, b);
    var l := Lcm(a, b);
    var x, y := Bezout(a, b);
    var p := Quotient(m, a);
    var q := Quotient(m, b);
    ScaledCommonMultiple(a, b, m, x, y, p, q);
    var k := x * q + y * p;
    Regather(m, g, a * b, l, k);
    Cancel(m, l * k, g);
    PositiveMultiple(l, k);
  }

  /** Substituting `l * g` for the product in `m * g == product * k`. */
  lemma Regather(m: int, g: int, product: int, l: int, k: int)
    requires m * g == product * k && product == l * g
    ensures m * g == (l * k) * g
  {
    assert (l * g) * k == (l * k) * g;
  }

  /** `a * b == l * g` when `a == ka * g` and `l == ka * b`. */
  lemma ProductIsLcmTimesGcd(a: int, b: int, g: int, ka: int, l: int)
    requires a == ka * g && l == ka * b
    ensures a * b == l * g
  {
    assert a * b == (ka * g) * b == (ka * b) * g;
  }

  /** A common multiple `m` of `a` and `b`, times `x * a + y * b`, is a
      multiple of `a * b`. */
  lemma ScaledCommonMultiple(a: int, b: int, m: int, x: int, y: int, p: int, q: int)
    requires m == a * p && m == b * q
    ensures m * (x * a + y * b) == (a * b) * (x * q + y * p)
  {
    assert m * (x * a) == x * (a * (b * q)) == (a * b) * (x * q);
    assert m * (y * b) == y * (b * (a * p)) == (a * b) * (y * p);
  }

  /** Cancelling a positive factor. */
  lemma Cancel(m: int, n: int, g: int)
    requires g > 0 && m * g == n * g
    ensures m == n
  {
    assert (m - n) * g == 0;
  }

  /** `x` rounded up to the next multiple of `y`. */
  function RoundUp(x: nat, y: nat): (r: nat)
    requires y > 0
    ensures r % y == 0 && x <= r < x + y
  {
    var q := (x + y - 1) / y;
    assert x + y - 1 == q * y + (x + y - 1) % y;
    MultipleMod(q, y);
    q * y
  }

  /** The video-memory size the probe computes for a mode: one frame of
      `xres * yres` pixels at `bpp` bits, rounded up to a whole number of
      pages that is also a whole number of double-line units. */
  function VramBytes(xres: nat, yres: nat, bpp: nat): (n: nat)
    requires xres * bpp * 2 / 8 > 0
    ensures n >= xres * yres * bpp / 8
    ensures n % PageSize == 0 && n % (xres * bpp * 2 / 8) == 0
  {
    var unit := Lcm(xres * bpp * 2 / 8, PageSize);
    var n := RoundUp(xres * yres * bpp / 8, unit);
    MultipleOfMultiple(n, unit, PageSize);
    MultipleOfMultiple(n, unit, xres * bpp * 2 / 8);
    n
  }

  lemma MultipleOfMultiple(n: nat, m: nat, d: nat)
    requires m > 0 && d > 0 && n % m == 0 && m % d == 0
    ensures n % d == 0
  {
    var i := n / m;
    var j := m / d;
    assert n == i * m && m == j * d;
    assert n == (i * j) * d;
    MultipleMod(i * j, d);
  }

  const PanelBytesPerLine: nat := 320 * 16 / 8

  /** The probe's video memory: 163840 bytes, 256 lines of 640 bytes. */
  const VramSize: u32 := 163840

  lemma VramSizeValue()
    ensures VramBytes(320, 240, 16) == VramSize as nat
    ensures VramSize as nat == 256 * PanelBytesPerLine
  {
    PanelLcm();
    assert 320 * 16 * 2 / 8 == 1280 && 320 * 240 * 16 / 8 == 153600;
    assert RoundUp(153600, 20480) == 163840 by {
      assert (153600 + 20480 - 1) / 20480 == 8;
    }
  }

  /** A double line of the panel and a page repeat every 20480 bytes. */
  lemma PanelLcm()
    ensures Lcm(1280, 4096) == 20480
  {
    assert Gcd(1280, 4096) == 256 by {
      assert Gcd(256, 0) == 256;
      assert Gcd(1280, 256) == 256;
      assert Gcd(4096, 1280) == 256;
    }
  }

  /** The fixed size of each encoded-frame buffer and of each DMA transfer:
      a command cycle and 320 * 240 pixel cycles, two 4-byte words each. */
  const LramSize: nat := 320 * 240 * 8 + 8

  /** Encoding the panel's full frame fills an lram buffer exactly. */
  lemma FullFrameFillsLram(src: seq<u16>)
    requires |src| >= 320 * 240
    ensures 4 * |PinProtocol.FrameWords(src, 320 * 240)| == LramSize
  {
  }

  lemma MulMono(a: nat, b: nat, c: nat, d: nat)
    requires a <= c && b <= d
    ensures a * b <= c * d
  {
    assert a * b <= c * b;
    assert c * b <= c * d;
  }

  /** The mode the driver runs after an accepted check (`myfb_set_par`
      copies it into `par->mode`) has at most the panel's pixel count. */
  lemma AcceptedModeBounded(v: VarScreenInfo)
    requires CheckVarAsWritten(v, VramSize).Success?
    ensures CheckVarAsWritten(v, VramSize).value.xres * CheckVarAsWritten(v, VramSize).value.yres <= 320 * 240
  {
    var m := CheckVarAsWritten(v, VramSize).value;
    MulMono(m.xres, m.yres, 320, 240);
  }

  /** Encoding at most the panel's pixel count never reads past the swap
      buffer (`vram_size / 2` pixels) and never writes past an lram
      buffer. */
  lemma FrameFitsBuffers(src: seq<u16>, total: nat)
    requires |src| == VramSize as nat / 2 && total <= 320 * 240
    ensures total <= |src|
    ensures 4 * |PinProtocol.FrameWords(src, total)| <= LramSize
  {
  }

  /** A virtual height that clamping should cut down to 256 lines passes
      through: 640 * 6710887 is 2^32 + 384, which wraps to 384. */
  lemma HeightOverflowAccepted()
    ensures var v := VarScreenInfo(320, 240, 320, 6710887, 0, 0, 16,
                                   NoTransparency, NoTransparency, NoTransparency, NoTransparency);
      && CheckVarAsWritten(v, VramSize).Success?
      && CheckVarAsWritten(v, VramSize).value.yresVirtual == 6710887
      && CheckVarAsWritten(v, VramSize).value.xresVirtual * 2 * 6710887 > VramSize as nat
      && CheckVar(v, VramSize).value.yresVirtual == 256
  {
    var v := VarScreenInfo(320, 240, 320, 6710887, 0, 0, 16,
                           NoTransparency, NoTransparency, NoTransparency, NoTransparency);
    assert Wrap(640 * 6710887) == 384;
    assert 640 * 256 <= 163840 < 640 * 257;
    assert LineBudget(VramSize, 640) == 256;
  }

  /** A horizontal offset near 2^32 passes through: 320 + 0xFFFFFF00 wraps
      to 64, which is within the 320-pixel virtual width. */
  lemma XOffsetOverflowAccepted()
    ensures var v := VarScreenInfo(320, 240, 320, 240, 0xFFFFFF00, 0, 16,
                                   NoTransparency, NoTransparency, NoTransparency, NoTransparency);
      && CheckVarAsWritten(v, VramSize).Success?
      && CheckVarAsWritten(v, VramSize).value.xoffset == 0xFFFFFF00
      && CheckVar(v, VramSize).value.xoffset == 0
  {
    assert Wrap(320 + 0xFFFFFF00) == 64;
    assert Wrap(640 * 240) == 153600;
  }

  /** A vertical offset near 2^32 passes through: 240 + 0xFFFFFF20 wraps
      to 16, which is within the 240-line virtual height. */
  lemma YOffsetOverflowAccepted()
    ensures var v := VarScreenInfo(320, 240, 320, 240, 0, 0xFFFFFF20, 16,
                                   NoTransparency, NoTransparency, NoTransparency, NoTransparency);
      && CheckVarAsWritten(v, VramSize).Success?
      && CheckVarAsWritten(v, VramSize).value.yoffset == 0xFFFFFF20
      && CheckVar(v, VramSize).value.yoffset == 0
  {
    assert Wrap(240 + 0xFFFFFF20) == 16;
    assert Wrap(640 * 240) == 153600;
  }

  /** Colour-map indices 16 to 31 lie inside the 32-entry colour map the
      probe sets up, yet the store as written goes past the 16-entry
      pseudo-palette for each of them; the checked version refuses them. */
  lemma PaletteIndexUnchecked(v: VarScreenInfo, palette: seq<bv32>)
    requires IsRgb565(v) && |palette| == PseudoPaletteSize
    ensures forall regno: u32 | PseudoPaletteSize <= regno as nat < CmapLen ::
      && SetColRegAsWritten(regno, 0, 0, 0, 0, v).index as nat >= PseudoPaletteSize
      && SetColReg(regno, 0, 0, 0, 0, v, palette).Failure?
    ensures SetColRegAsWritten(16, 0, 0, 0, 0, v).index as nat >= PseudoPaletteSize
    ensures SetColReg(16, 0, 0, 0, 0, v, palette).Failure?
  {
  }
}
