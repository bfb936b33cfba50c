/** The Miyoo keypad's button decoding: from the sampled pin levels to a
    16-bit button mask, and the stages that rewrite that mask before key
    events are derived from it: the lock filter, the noise filter, the
    SELECT hotkeys and the START combinations.

    A button mask is the driver's `uint32_t` value restricted to the 16
    bits the driver ever sets, kept as one flag per bit position; `Value`
    gives the C integer back. */
module Keypad {
  import opened Bits
  import opened Wrappers

  /** Bits 0 to 15 of a button mask. */
  type Mask = m: seq<bool> | |m| == 16
    witness [false, false, false, false, false, false, false, false, false, false, false, false, false, false, false, false]

  /** A bit position of a mask. */
  type Button = i: nat | i < 16

  /** The driver's buttons by bit position (`MY_UP` is `1 << 3`, and so
      on). Bit 0 names no button. */
  const Tb: Button := 1
  const R: Button := 2
  const Up: Button := 3
  const Ta: Button := 4
  const B: Button := 5
  const Right: Button := 6
  const Left: Button := 7
  const A: Button := 8
  const Start: Button := 9
  const Select: Button := 10
  const Down: Button := 11
  const L1: Button := 12
  const R1: Button := 13
  const L2: Button := 14
  const R2: Button := 15

  const Empty: Mask := [false, false, false, false, false, false, false, false, false, false, false, false, false, false, false, false]

  /** The mask with only `b` set. */
  function Only(b: Button): (m: Mask)
    ensures m[b] && forall i | 0 <= i < 16 && i != b :: !m[i]
  {
    Empty[b := true]
  }

  /** Every bit set in `a` is set in `b`. */
  predicate Within(a: Mask, b: Mask) {
    forall i | 0 <= i < 16 :: a[i] ==> b[i]
  }

  /** `a` and `b` agree on every bit outside `changed`. */
  predicate AgreeOutside(a: Mask, b: Mask, changed: set<nat>) {
    forall i | 0 <= i < 16 && i !in changed :: a[i] == b[i]
  }

  /** The integer value of bits `n` and up, shifted down by `n`. */
  function ValueFrom(m: Mask, n: nat): (v: nat)
    requires n <= 16
    decreases 16 - n
  {
    if n == 16 then 0 else (if m[n] then 1 else 0) + 2 * ValueFrom(m, n + 1)
  }

  /** The C integer a mask stands for. */
  function Value(m: Mask): nat {
    ValueFrom(m, 0)
  }

  /** Number of set bits among bits `n` and up. */
  function CountFrom(m: Mask, n: nat): (c: nat)
    requires n <= 16
    ensures c <= 16 - n
    decreases 16 - n
  {
    if n == 16 then 0 else (if m[n] then 1 else 0) + CountFrom(m, n + 1)
  }

  /** Number of buttons held. */
  function Count(m: Mask): nat {
    CountFrom(m, 0)
  }

  lemma {:induction false} CountFromOnly(b: Button, n: nat)
    requires n <= 16
    ensures CountFrom(Only(b), n) == if n <= b then 1 else 0
    decreases 16 - n
  {
    if n < 16 {
      CountFromOnly(b, n + 1);
    }
  }

  lemma {:induction false} CountFromEmpty(n: nat)
    requires n <= 16
    ensures CountFrom(Empty, n) == 0
    decreases 16 - n
  {
    if n < 16 {
      CountFromEmpty(n + 1);
    }
  }

  /** One button held counts one; none counts zero. */
  lemma CountOfOnly(b: Button)
    ensures Count(Only(b)) == 1
    ensures Count(Empty) == 0
  {
    CountFromOnly(b, 0);
    CountFromEmpty(0);
  }

  // ---------------------------------------------------------------------
  // bit_count

  /** Number of set bits of a natural number. */
  function Ones(v: nat): nat {
    if v == 0 then 0 else v % 2 + Ones(v / 2)
  }

  /** `2^n`. */
  function Pow2(n: nat): (p: nat)
    ensures p >= 1
  {
    if n == 0 then 1 else 2 * Pow2(n - 1)
  }

  lemma {:induction false} Pow2Add(a: nat, b: nat)
    ensures Pow2(a + b) == Pow2(a) * Pow2(b)
  {
    if b > 0 {
      Pow2Add(a, b - 1);
      assert Pow2(a + b) == 2 * (Pow2(a) * Pow2(b - 1)) == Pow2(a) * (2 * Pow2(b - 1));
    }
  }

  /** A `uint32_t` has 32 bits. */
  lemma Pow2Of32()
    ensures Pow2(32) == Two32
  {
    assert Pow2(4) == 16;
    Pow2Add(4, 4);
    Pow2Add(8, 8);
    Pow2Add(16, 16);
  }

  /** `bit_count`: examine the lowest bit 32 times, shifting right after
      each (on an unsigned value `& 1` is `% 2` and `>>= 1` is `/ 2`).
      The result is the number of set bits, at most 32. */
  method BitCount(v: u32) returns (count: nat)
    ensures count == Ones(v)
    ensures count <= 32
  {
    Pow2Of32();
    count := 0;
    var val: nat := v;
    var x: nat := 0;
    while x < 32
      invariant x <= 32 && val < Pow2(32 - x)
      invariant count + Ones(val) == Ones(v)
      invariant count <= x
    {
      if val % 2 == 1 {
        count := count + 1;
      }
      val := val / 2;
      x := x + 1;
    }
  }

  /** The bits of a mask's value are the mask's bits: its lowest bit is
      bit `n`, and shifting it right drops that bit. */
  lemma {:induction false} OnesOfValueFrom(m: Mask, n: nat)
    requires n <= 16
    ensures Ones(ValueFrom(m, n)) == CountFrom(m, n)
    decreases 16 - n
  {
    if n < 16 {
      OnesOfValueFrom(m, n + 1);
      var rest := ValueFrom(m, n + 1);
      var v := ValueFrom(m, n);
      assert v % 2 == (if m[n] then 1 else 0) && v / 2 == rest;
    }
  }

  /** `bit_count` of a mask's value counts the buttons held. */
  lemma BitCountOfMask(m: Mask)
    ensures Ones(Value(m)) == Count(m)
  {
    OnesOfValueFrom(m, 0);
  }

  lemma {:induction false} ValueFromOnly(b: Button, n: nat)
    requires n <= 16
    ensures ValueFrom(Only(b), n) == if n <= b then Pow2(b - n) else 0
    decreases 16 - n
  {
    if n < 16 {
      ValueFromOnly(b, n + 1);
    }
  }

  /** Each button's mask has the value of the driver's constant for it. */
  lemma ButtonValues()
    ensures Value(Only(Up)) == 0x0008 && Value(Only(Down)) == 0x0800
    ensures Value(Only(Left)) == 0x0080 && Value(Only(Right)) == 0x0040
    ensures Value(Only(A)) == 0x0100 && Value(Only(B)) == 0x0020
    ensures Value(Only(Ta)) == 0x0010 && Value(Only(Tb)) == 0x0002
    ensures Value(Only(Select)) == 0x0400 && Value(Only(Start)) == 0x0200
    ensures Value(Only(R)) == 0x0004 && Value(Only(L1)) == 0x1000
    ensures Value(Only(R1)) == 0x2000 && Value(Only(L2)) == 0x4000
    ensures Value(Only(R2)) == 0x8000
  {
    forall b: Button
      ensures Value(Only(b)) == Pow2(b)
    {
      ValueFromOnly(b, 0);
    }
    assert Pow2(15) == 0x8000;
  }

  // ---------------------------------------------------------------------
  // Sampling

  /** Three driven rows of four inputs each: `grid[s][k]` when input
      `k + 1` reads low while row `s` is driven low. */
  predicate Shaped(grid: seq<seq<bool>>) {
    |grid| == 3 && forall s | 0 <= s < 3 :: |grid[s]| == 4
  }

  /** The mask a grid reading stands for: bit `4 * s + k` for each key
      read down, nothing above bit 11. */
  function MatrixBits(grid: seq<seq<bool>>): Mask
    requires Shaped(grid)
  {
    seq(16, i requires 0 <= i < 16 => i < 12 && grid[i / 4][i % 4])
  }

  /** The matrix scan of versions 1 and 2: row `scan` driven low and input
      `k + 1` reading low set bit `4 * scan + k`. The result holds exactly
      the keys read down, in bits 0 to 11. */
  method ScanMatrix(grid: seq<seq<bool>>) returns (val: Mask)
    requires Shaped(grid)
    ensures forall s, k | 0 <= s < 3 && 0 <= k < 4 :: val[4 * s + k] == grid[s][k]
    ensures forall i | 12 <= i < 16 :: !val[i]
    ensures val == MatrixBits(grid)
  {
    val := Empty;
    var scan: nat := 0;
    while scan < 3
      invariant scan <= 3
      invariant forall s, k | 0 <= s < scan && 0 <= k < 4 :: val[4 * s + k] == grid[s][k]
      invariant forall i | 4 * scan <= i < 16 :: !val[i]
    {
      var k: nat := 0;
      while k < 4
        invariant k <= 4
        invariant forall s, k' | 0 <= s < scan && 0 <= k' < 4 :: val[4 * s + k'] == grid[s][k']
        invariant forall k' | 0 <= k' < k :: val[4 * scan + k'] == grid[scan][k']
        invariant forall i | 4 * scan + k <= i < 16 :: !val[i]
      {
        if grid[scan][k] {
          val := val[4 * scan + k := true];
        }
        k := k + 1;
      }
      scan := scan + 1;
    }
    forall i | 0 <= i < 12
      ensures val[i] == MatrixBits(grid)[i]
    {
      assert i == 4 * (i / 4) + i % 4;
    }
  }

  /** The directly wired buttons of versions 1 and 2, levels low. */
  datatype MatrixPins = MatrixPins(grid: seq<seq<bool>>, l1: bool, r1: bool, l2: bool, r2: bool, a: bool, ta: bool)

  /** Raise `b` when `down`. */
  function RaiseIf(val: Mask, down: bool, b: Button): (r: Mask)
    ensures r[b] == (val[b] || down)
    ensures AgreeOutside(r, val, {b})
  {
    if down then val[b := true] else val
  }

  /** The directly wired buttons added to the matrix bits. The L2 and R2
      inputs stand in for B and TB: the build shares B's and TB's own pins
      with the serial port and leaves them unread. */
  function MatrixExtras(val: Mask, p: MatrixPins): (r: Mask)
    ensures r[L1] == (val[L1] || p.l1) && r[R1] == (val[R1] || p.r1)
    ensures r[B] == (val[B] || p.l2) && r[Tb] == (val[Tb] || p.r2)
    ensures r[A] == (val[A] || p.a) && r[Ta] == (val[Ta] || p.ta)
    ensures AgreeOutside(r, val, {L1, R1, B, Tb, A, Ta})
  {
    var v1 := RaiseIf(val, p.l1, L1);
    var v2 := RaiseIf(v1, p.r1, R1);
    var v3 := RaiseIf(v2, p.l2, B);
    var v4 := RaiseIf(v3, p.r2, Tb);
    var v5 := RaiseIf(v4, p.a, A);
    RaiseIf(v5, p.ta, Ta)
  }

  /** Bit by bit, a matrix reading with its extras: the grid decides
      every matrix bit, OR-ed with a direct pin for TB, TA, B and A. */
  lemma MatrixExtrasBits(bits: Mask, m: MatrixPins)
    requires Shaped(m.grid)
    requires forall s, k | 0 <= s < 3 && 0 <= k < 4 :: bits[4 * s + k] == m.grid[s][k]
    requires forall i | 12 <= i < 16 :: !bits[i]
    ensures var val := MatrixExtras(bits, m);
      && (forall s, k | 0 <= s < 3 && 0 <= k < 4 && 4 * s + k !in {Tb, Ta, B, A} :: val[4 * s + k] == m.grid[s][k])
      && val[Tb] == (m.grid[0][1] || m.r2) && val[Ta] == (m.grid[1][0] || m.ta)
      && val[B] == (m.grid[1][1] || m.l2) && val[A] == (m.grid[2][0] || m.a)
      && val[L1] == m.l1 && val[R1] == m.r1 && !val[L2] && !val[R2]
  {
    var val := MatrixExtras(bits, m);
    forall s, k | 0 <= s < 3 && 0 <= k < 4 && 4 * s + k !in {Tb, Ta, B, A}
      ensures val[4 * s + k] == m.grid[s][k]
    {
      var i := 4 * s + k;
      assert i < 12 && i !in {L1, R1, B, Tb, A, Ta};
      assert val[i] == bits[i];
    }
    assert bits[4 * 0 + 1] == m.grid[0][1] && bits[4 * 1 + 0] == m.grid[1][0];
    assert bits[4 * 1 + 1] == m.grid[1][1] && bits[4 * 2 + 0] == m.grid[2][0];
  }

  /** The pin levels of version 3, which wires every button to its own
      pin; `true` is a low level. */
  datatype DirectPins = DirectPins(in1: bool, in2: bool, in3: bool, in4: bool, out1: bool, out2: bool, out3: bool,
                                   inTa: bool, inA: bool, inL2: bool, inL1: bool, inR1: bool, inMenu: bool)

  /** The level that decides button `b` on version 3. */
  function DirectPin(p: DirectPins, b: Button): bool {
    if b == Up then p.in1 else if b == Down then p.in2
    else if b == Left then p.in3 else if b == Right then p.in4
    else if b == A then p.out1 else if b == B then p.out2 else if b == Ta then p.out3
    else if b == Tb then p.inTa else if b == Select then p.inA else if b == Start then p.inL2
    else if b == L1 then p.inL1 else if b == R1 then p.inR1 else if b == R then p.inMenu
    else false
  }

  /** Version 3's pin-to-button map: each pin sets one button of its own,
      and bit 0, L2 and R2 are never set. */
  function DirectButtons(p: DirectPins): (val: Mask)
    ensures val[Up] == p.in1 && val[Down] == p.in2 && val[Left] == p.in3 && val[Right] == p.in4
    ensures val[A] == p.out1 && val[B] == p.out2 && val[Ta] == p.out3
    ensures val[Tb] == p.inTa && val[Select] == p.inA && val[Start] == p.inL2
    ensures val[L1] == p.inL1 && val[R1] == p.inR1 && val[R] == p.inMenu
    ensures !val[0] && !val[L2] && !val[R2]
  {
    seq(16, i requires 0 <= i < 16 => DirectPin(p, i))
  }

  /** The sampled button mask: the matrix and its extras up to version 2,
      the direct map from version 3 on. No sample has L2 or R2 set: those
      two only arise from START combinations. */
  method ReadButtons(ver: u32, m: MatrixPins, d: DirectPins) returns (val: Mask)
    requires Shaped(m.grid)
    ensures ver <= 2 ==> val == MatrixExtras(MatrixBits(m.grid), m)
    ensures ver <= 2 ==> forall s, k | 0 <= s < 3 && 0 <= k < 4 && 4 * s + k !in {Tb, Ta, B, A} :: val[4 * s + k] == m.grid[s][k]
    ensures ver <= 2 ==> val[Tb] == (m.grid[0][1] || m.r2) && val[Ta] == (m.grid[1][0] || m.ta)
    ensures ver <= 2 ==> val[B] == (m.grid[1][1] || m.l2) && val[A] == (m.grid[2][0] || m.a)
    ensures ver <= 2 ==> val[L1] == m.l1 && val[R1] == m.r1
    ensures ver > 2 ==> val == DirectButtons(d)
    ensures !val[L2] && !val[R2]
  {
    if ver <= 2 {
      var grid := ScanMatrix(m.grid);
      val := MatrixExtras(grid, m);
      MatrixExtrasBits(grid, m);
    } else {
      val := DirectButtons(d);
    }
  }

  // ---------------------------------------------------------------------
  // The mask stages

  /** The lock filter: while the keypad is locked only R passes, so at
      most one button is reported; unlocked, the sample passes whole. */
  function Lock(lockkey: u32, val: Mask): (r: Mask)
    ensures lockkey != 0 ==> r[R] == val[R] && forall i | 0 <= i < 16 && i != R :: !r[i]
    ensures lockkey != 0 ==> Within(r, val) && Count(r) <= 1
    ensures lockkey == 0 ==> r == val
  {
    if lockkey != 0 then
      CountOfOnly(R);
      if val[R] then Only(R) else Empty
    else val
  }

  /** The buttons the noise filter may drop. */
  const NoiseDroppable: set<nat> := {Start, Down, Ta}

  /** One noise rule: drop `b` when its pattern is `held`. */
  function Drop(val: Mask, held: bool, b: Button): (r: Mask)
    ensures Within(r, val)
    ensures AgreeOutside(r, val, {b})
  {
    if held then val[b := false] else val
  }

  /** Rule 4's pattern, the only one that clears TA in the end. */
  predicate TaGhost(v: Mask) {
    v[Left] && v[Up] && v[B]
  }

  /** Rule 2's pattern, the only one that clears DOWN. */
  predicate DownGhost(v: Mask) {
    v[Left] && v[A] && v[Ta]
  }

  /** The patterns that clear START, read off the sampled mask: rule 1's
      as is, rules 5's and 6's only when rule 4 has left TA standing. */
  predicate StartGhost(v: Mask) {
    || (v[Left] && v[Down] && v[B])
    || (v[Ta] && !TaGhost(v) && v[B] && v[A])
    || (v[Ta] && !TaGhost(v) && v[Right] && v[Up] && v[B] && v[Tb])
  }

  /** The outcome of the rules in closed form: each droppable button
      survives exactly when none of its patterns holds. */
  function Unghosted(v: Mask): Mask {
    v[Start := v[Start] && !StartGhost(v)][Down := v[Down] && !DownGhost(v)][Ta := v[Ta] && !TaGhost(v)]
  }

  /** The seven noise rules, in the driver's order; each drops a START,
      DOWN or TA that the matrix reports as a ghost of three or more other
      buttons held. */
  function NoiseRules(val: Mask): (r: Mask)
    ensures Within(r, val)
    ensures AgreeOutside(r, val, NoiseDroppable)
    ensures r == Unghosted(val)
  {
    var v6 := FirstSixRules(val);
    DropsOnlyNoise(val, v6, Start);
    Drop(v6, v6[Left] && v6[Down] && v6[B], Start)
  }

  /** A step that keeps within `val` and agrees with it outside the
      droppable buttons, followed by dropping one of those, still does. */
  lemma DropsOnlyNoise(val: Mask, v: Mask, b: Button)
    requires Within(v, val) && AgreeOutside(v, val, NoiseDroppable) && b in NoiseDroppable
    ensures forall held :: Within(Drop(v, held, b), val) && AgreeOutside(Drop(v, held, b), val, NoiseDroppable)
  {
  }

  /** The noise filter: the rules run only with more than two buttons
      down (`bit_count` of the value, which `BitCountOfMask` shows is the
      number of buttons held). It only ever clears START, DOWN or TA. */
  function NoiseFilter(val: Mask): (r: Mask)
    ensures Within(r, val)
    ensures AgreeOutside(r, val, NoiseDroppable)
    ensures Count(val) <= 2 ==> r == val
    ensures Count(val) > 2 ==> r == Unghosted(val)
  {
    if Count(val) > 2 then NoiseRules(val) else val
  }

  /** The first six rules alone. */
  function FirstSixRules(val: Mask): (r: Mask)
    ensures Within(r, val)
    ensures AgreeOutside(r, val, NoiseDroppable)
    ensures r == Unghosted(val)
  {
    var v1 := Drop(val, val[Left] && val[Down] && val[B], Start);
    DropsOnlyNoise(val, val, Start);
    var v2 := Drop(v1, v1[Left] && v1[A] && v1[Ta], Down);
    DropsOnlyNoise(val, v1, Down);
    var v3 := Drop(v2, v2[Left] && v2[Down] && v2[A], Ta);
    DropsOnlyNoise(val, v2, Ta);
    var v4 := Drop(v3, v3[Left] && v3[Up] && v3[B], Ta);
    DropsOnlyNoise(val, v3, Ta);
    var v5 := Drop(v4, v4[B] && v4[A] && v4[Ta], Start);
    DropsOnlyNoise(val, v4, Start);
    DropsOnlyNoise(val, v5, Start);
    Drop(v5, v5[Right] && v5[Up] && v5[B] && v5[Tb] && v5[Ta], Start)
  }

  /** The seventh rule repeats the first and never changes the outcome:
      rules only clear bits, so when its pattern is held at the end it was
      held at the start, and START is already clear. */
  lemma SeventhRuleRedundant(val: Mask)
    ensures NoiseRules(val) == FirstSixRules(val)
  {
  }

  /** The third rule never changes the mask: when LEFT, DOWN and A are
      still held at that point, the second rule has just cleared DOWN
      unless TA was already clear, so there is no TA left to drop. */
  lemma ThirdRuleDead(val: Mask)
    ensures var v1 := Drop(val, val[Left] && val[Down] && val[B], Start);
            var v2 := Drop(v1, v1[Left] && v1[A] && v1[Ta], Down);
            Drop(v2, v2[Left] && v2[Down] && v2[A], Ta) == v2
  {
  }

  /** The stage result: the mask so far and the pending hotkey code. */
  datatype Stage = Stage(val: Mask, hotkey: u32)

  /** The SELECT hotkeys, in priority order: the partner button and the
      code it stores (3 volume up, 4 volume down, 1 backlight up, 2
      backlight down). */
  const HotkeyPartners: seq<(Button, u32)> := [(B, 3), (A, 4), (Tb, 1), (Ta, 2)]

  /** The START combinations, in priority order: the partner button and
      the shoulder button the pair stands for. */
  const ComboPartners: seq<(Button, Button)> := [(B, L1), (A, R1), (Tb, L2), (Ta, R2)]

  /** Index of the first entry of `partners` whose button is held. */
  function FirstHeld<T>(val: Mask, partners: seq<(Button, T)>): (i: Option<nat>)
    ensures i.Some? ==> i.value < |partners| && val[partners[i.value].0]
    ensures i.Some? ==> forall j | 0 <= j < i.value :: !val[partners[j].0]
    ensures i.None? ==> forall j | 0 <= j < |partners| :: !val[partners[j].0]
  {
    if |partners| == 0 then None
    else if val[partners[0].0] then Some(0)
    else match FirstHeld(val, partners[1..])
      case None => None
      case Some(i) => Some(i + 1)
  }

  /** SELECT held with a partner: the first partner held is released and,
      unless a hotkey is still pending, its code becomes the hotkey. */
  function Hotkey(s: Stage): (r: Stage)
    ensures Within(r.val, s.val)
    ensures r.val[Select] == s.val[Select]
    ensures s.hotkey != 0 ==> r.hotkey == s.hotkey
    ensures r.hotkey <= 4 || r.hotkey == s.hotkey
  {
    var val := s.val;
    var pending := s.hotkey;
    if val[Select] && val[B] then Stage(val[B := false], if pending == 0 then 3 else pending)
    else if val[Select] && val[A] then Stage(val[A := false], if pending == 0 then 4 else pending)
    else if val[Select] && val[Tb] then Stage(val[Tb := false], if pending == 0 then 1 else pending)
    else if val[Select] && val[Ta] then Stage(val[Ta := false], if pending == 0 then 2 else pending)
    else s
  }

  /** The hotkey stage follows its priority table: without SELECT, or
      with no partner held, nothing changes; otherwise exactly the first
      partner held is cleared, and its code is stored only if no hotkey
      was pending. */
  lemma HotkeyFollowsTable(s: Stage)
    ensures !s.val[Select] ==> Hotkey(s) == s
    ensures s.val[Select] ==>
      match FirstHeld(s.val, HotkeyPartners)
      case None => Hotkey(s) == s
      case Some(i) => Hotkey(s) == Stage(s.val[HotkeyPartners[i].0 := false],
                                         if s.hotkey == 0 then HotkeyPartners[i].1 else s.hotkey)
  {
    var t := HotkeyPartners;
    assert t[0] == (B, 3) && t[1] == (A, 4) && t[2] == (Tb, 1) && t[3] == (Ta, 2);
    var first := FirstHeld(s.val, t);
    assert first.Some? ==> first.value in {0, 1, 2, 3};
    assert first.None? ==> !s.val[B] && !s.val[A] && !s.val[Tb] && !s.val[Ta];
  }

  /** START held with a partner: the first partner held and START are
      released and the shoulder button the pair stands for is pressed.
      Afterwards START is never held together with a partner. */
  function Combo(val: Mask): (r: Mask)
    ensures r[Start] ==> !r[B] && !r[A] && !r[Tb] && !r[Ta]
    ensures r[Select] == val[Select]
    ensures Within(r, WithShoulders(val))
  {
    if val[Start] && val[B] then val[B := false][Start := false][L1 := true]
    else if val[Start] && val[A] then val[A := false][Start := false][R1 := true]
    else if val[Start] && val[Tb] then val[Tb := false][Start := false][L2 := true]
    else if val[Start] && val[Ta] then val[Ta := false][Start := false][R2 := true]
    else val
  }

  /** The combination stage follows its priority table. */
  lemma ComboFollowsTable(val: Mask)
    ensures !val[Start] ==> Combo(val) == val
    ensures val[Start] ==>
      match FirstHeld(val, ComboPartners)
      case None => Combo(val) == val
      case Some(i) => Combo(val) == val[ComboPartners[i].0 := false][Start := false][ComboPartners[i].1 := true]
  {
    var t := ComboPartners;
    assert t[0] == (B, L1) && t[1] == (A, R1) && t[2] == (Tb, L2) && t[3] == (Ta, R2);
    var first := FirstHeld(val, t);
    assert first.Some? ==> first.value in {0, 1, 2, 3};
    assert first.None? ==> !val[B] && !val[A] && !val[Tb] && !val[Ta];
  }

  /** `m` with the four shoulder buttons raised. */
  function WithShoulders(m: Mask): Mask {
    m[L1 := true][R1 := true][L2 := true][R2 := true]
  }

  lemma WithinTransitive(a: Mask, b: Mask, c: Mask)
    requires Within(a, b) && Within(b, c)
    ensures Within(a, c)
  {
  }

  lemma WithinShoulders(a: Mask, b: Mask)
    requires Within(a, b)
    ensures Within(WithShoulders(a), WithShoulders(b))
  {
  }

  /** Everything `scan_handler` does to a sampled mask before comparing
      it with the previous one. Besides the shoulder buttons a combination
      presses, only buttons that were sampled can come out. */
  function Transform(lockkey: u32, hotkey: u32, sampled: Mask): (r: Stage)
    ensures Within(r.val, WithShoulders(sampled))
    ensures r.hotkey <= 4 || r.hotkey == hotkey
    ensures hotkey != 0 ==> r.hotkey == hotkey
  {
    var locked := Lock(lockkey, sampled);
    assert Within(locked, sampled);
    var quiet := NoiseFilter(locked);
    var keyed := Hotkey(Stage(quiet, hotkey));
    WithinTransitive(quiet, locked, sampled);
    WithinTransitive(keyed.val, quiet, sampled);
    WithinShoulders(keyed.val, sampled);
    var r := Combo(keyed.val);
    WithinTransitive(r, WithShoulders(keyed.val), WithShoulders(sampled));
    Stage(r, keyed.hotkey)
  }

  /** A locked keypad yields R or nothing, whatever is held, and never
      changes the pending hotkey: with at most one button down the noise
      filter is idle, and neither SELECT nor START can pass the lock. */
  lemma LockedTransform(lockkey: u32, hotkey: u32, sampled: Mask)
    requires lockkey != 0
    ensures Transform(lockkey, hotkey, sampled) == Stage(if sampled[R] then Only(R) else Empty, hotkey)
  {
    CountOfOnly(R);
  }
}
