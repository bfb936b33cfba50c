/** The Miyoo keypad's key events: the press/release edge detector
    `report_key`, the version-dependent key map, the change detection at
    the end of `scan_handler`, and the `myioctl` commands that read the
    hotkey, select the hardware version and lock the keypad. */
module KeyEvents {
  import opened Bits
  import opened Wrappers
  import opened Keypad

  /** The input-layer key codes the keypad reports. */
  datatype KeyCode =
    | KeyUp | KeyDown | KeyLeft | KeyRight | KeyLeftCtrl | KeyRightCtrl | KeySpace | KeyLeftAlt
    | KeyLeftShift | KeyEsc | KeyEnter | KeyTab | KeyBackspace | KeyRightAlt | KeyRightShift

  /** One `input_report_key`: the key and whether it went down. */
  datatype Event = Event(key: KeyCode, down: bool)

  /** `report_key`'s two static masks: buttons last reported down, and
      buttons last reported up. */
  datatype Edges = Edges(pressed: Mask, released: Mask)

  const Full: Mask := [true, true, true, true, true, true, true, true, true, true, true, true, true, true, true, true]

  /** At load time nothing is down and everything is up (0 and 0xffff). */
  const InitialEdges: Edges := Edges(Empty, Full)

  /** `report_key(btn, mask, key)` for the single-bit mask of button `b`:
      a held button is recorded pressed, and reported down unless it
      already was; a free button is recorded released, and reported up
      unless it already was. No other bit changes. */
  function ReportKey(e: Edges, btn: Mask, b: Button, key: KeyCode): (r: (Edges, seq<Event>))
    ensures r.0.pressed[b] == btn[b] && r.0.released[b] == !btn[b]
    ensures forall i | 0 <= i < 16 && i != b :: r.0.pressed[i] == e.pressed[i] && r.0.released[i] == e.released[i]
    ensures |r.1| <= 1
    ensures forall j | 0 <= j < |r.1| :: r.1[j] == Event(key, btn[b])
  {
    if btn[b] then
      var released := e.released[b := false];
      if !e.pressed[b] then (Edges(e.pressed[b := true], released), [Event(key, true)])
      else (Edges(e.pressed, released), [])
    else
      var pressed := e.pressed[b := false];
      if !e.released[b] then (Edges(pressed, e.released[b := true]), [Event(key, false)])
      else (Edges(pressed, e.released), [])
  }

  /** Exactly one of the two masks has bit `b`. */
  predicate Exclusive(e: Edges, b: Button) {
    e.pressed[b] != e.released[b]
  }

  /** A press is reported only on a not-pressed to pressed transition and
      a release only on the reverse; while the masks are exclusive for `b`
      an event is reported exactly when the recorded state changes. */
  lemma ReportKeyEdges(e: Edges, btn: Mask, b: Button, key: KeyCode)
    ensures ReportKey(e, btn, b, key).1 == [Event(key, true)] <==> btn[b] && !e.pressed[b]
    ensures ReportKey(e, btn, b, key).1 == [Event(key, false)] <==> !btn[b] && !e.released[b]
    ensures Exclusive(e, b) ==> (ReportKey(e, btn, b, key).1 != [] <==> e.pressed[b] != btn[b])
    ensures Exclusive(ReportKey(e, btn, b, key).0, b)
  {
  }

  /** Reporting the same buttons again reports nothing and changes
      nothing. */
  lemma ReportKeyTwice(e: Edges, btn: Mask, b: Button, key: KeyCode)
    ensures var once := ReportKey(e, btn, b, key).0;
      ReportKey(once, btn, b, key) == (once, [])
  {
    var once := ReportKey(e, btn, b, key).0;
    if btn[b] {
      assert once.released[b := false] == once.released;
    } else {
      assert once.pressed[b := false] == once.pressed;
    }
  }

  /** The key map of `scan_handler`, in report order. Versions 1 and 3
      map LEFT to the left key and R to the right control key; any other
      version swaps the two (and reports R first). */
  function KeyMap(ver: u32): (m: seq<(Button, KeyCode)>)
    ensures |m| == 15
    ensures forall j | 0 <= j < 15 :: m[j].0 != 0 && KeyFor(ver, m[j].0) == Some(m[j].1)
  {
    var swappable := if ver == 1 || ver == 3 then [(Left, KeyLeft), (R, KeyRightCtrl)]
                     else [(R, KeyLeft), (Left, KeyRightCtrl)];
    [(Up, KeyUp), (Down, KeyDown)] + swappable
    + [(Right, KeyRight), (A, KeyLeftCtrl), (B, KeySpace), (Ta, KeyLeftAlt), (Tb, KeyLeftShift),
       (Select, KeyEsc), (Start, KeyEnter), (L1, KeyTab), (R1, KeyBackspace), (L2, KeyRightAlt),
       (R2, KeyRightShift)]
  }

  /** The key reported for button `b`. */
  function KeyFor(ver: u32, b: Button): (k: Option<KeyCode>)
    ensures k.Some? <==> b != 0
  {
    if b == 0 then None
    else if b == Left then Some(if ver == 1 || ver == 3 then KeyLeft else KeyRightCtrl)
    else if b == R then Some(if ver == 1 || ver == 3 then KeyRightCtrl else KeyLeft)
    else if b == Up then Some(KeyUp) else if b == Down then Some(KeyDown)
    else if b == Right then Some(KeyRight) else if b == A then Some(KeyLeftCtrl)
    else if b == B then Some(KeySpace) else if b == Ta then Some(KeyLeftAlt)
    else if b == Tb then Some(KeyLeftShift) else if b == Select then Some(KeyEsc)
    else if b == Start then Some(KeyEnter) else if b == L1 then Some(KeyTab)
    else if b == R1 then Some(KeyBackspace) else if b == L2 then Some(KeyRightAlt)
    else Some(KeyRightShift)
  }

  /** The key map reports every button but bit 0 once, each with its key;
      only LEFT and R depend on the version, and the keys come out in the
      same order on every version. */
  lemma KeyMapShape(ver: u32)
    ensures forall j | 0 <= j < 15 :: KeyMap(ver)[j].0 != 0
    ensures forall j | 0 <= j < 15 :: KeyFor(ver, KeyMap(ver)[j].0) == Some(KeyMap(ver)[j].1)
    ensures forall j, k | 0 <= j < k < 15 :: KeyMap(ver)[j].0 != KeyMap(ver)[k].0
    ensures forall j | 0 <= j < 15 :: KeyMap(ver)[j].1 == KeyMap(1)[j].1
  {
  }

  /** Where button `b` sits in the key map. */
  function PositionOf(ver: u32, b: Button): (j: nat)
    requires b != 0
    ensures j < 15 && KeyMap(ver)[j].0 == b
  {
    var swapped := !(ver == 1 || ver == 3);
    if b == Up then 0 else if b == Down then 1
    else if b == Left then (if swapped then 3 else 2)
    else if b == R then (if swapped then 2 else 3)
    else if b == Right then 4 else if b == A then 5 else if b == B then 6
    else if b == Ta then 7 else if b == Tb then 8 else if b == Select then 9
    else if b == Start then 10 else if b == L1 then 11 else if b == R1 then 12
    else if b == L2 then 13 else 14
  }

  /** The buttons a key map reports. */
  function ButtonsOf(keys: seq<(Button, KeyCode)>): set<nat> {
    set j | 0 <= j < |keys| :: keys[j].0 as nat
  }

  /** Report every entry of `keys` in turn; buttons the map does not
      mention keep their recorded state. */
  function ReportAll(e: Edges, btn: Mask, keys: seq<(Button, KeyCode)>): (r: (Edges, seq<Event>))
    decreases |keys|
    ensures forall i | 0 <= i < 16 && i !in ButtonsOf(keys) ::
      r.0.pressed[i] == e.pressed[i] && r.0.released[i] == e.released[i]
  {
    if |keys| == 0 then (e, [])
    else
      var first := ReportKey(e, btn, keys[0].0, keys[0].1);
      var rest := ReportAll(first.0, btn, keys[1..]);
      assert forall i | i in ButtonsOf(keys[1..]) :: i in ButtonsOf(keys) by {
        forall i | i in ButtonsOf(keys[1..]) ensures i in ButtonsOf(keys) {
          var j :| 0 <= j < |keys[1..]| && keys[1..][j].0 as nat == i;
          assert keys[j + 1].0 as nat == i;
        }
      }
      (rest.0, first.1 + rest.1)
  }

  /** The recorded state of button `b` matches mask `m`: pressed exactly
      when held, released exactly when free. */
  predicate Agrees(e: Edges, m: Mask, b: Button) {
    e.pressed[b] == m[b] && e.released[b] == !m[b]
  }

  /** No two entries of a key map name the same button. */
  predicate Distinct(keys: seq<(Button, KeyCode)>) {
    forall j, k | 0 <= j < k < |keys| :: keys[j].0 != keys[k].0
  }

  /** The events a report pass owes: one per entry whose button differs
      between the earlier and the later mask, in map order. */
  function Changes(before: Mask, now: Mask, keys: seq<(Button, KeyCode)>): seq<Event> {
    if |keys| == 0 then []
    else
      var b := keys[0].0;
      (if before[b] != now[b] then [Event(keys[0].1, now[b])] else []) + Changes(before, now, keys[1..])
  }

  /** If the recorded state tracked the earlier mask on every mapped
      button, a report pass emits exactly the changes and leaves the state
      tracking the later mask. */
  lemma {:induction false} ReportAllReportsChanges(e: Edges, before: Mask, now: Mask, keys: seq<(Button, KeyCode)>)
    decreases |keys|
    requires Distinct(keys)
    requires forall j | 0 <= j < |keys| :: Agrees(e, before, keys[j].0)
    ensures ReportAll(e, now, keys).1 == Changes(before, now, keys)
    ensures forall j | 0 <= j < |keys| :: Agrees(ReportAll(e, now, keys).0, now, keys[j].0)
  {
    if |keys| > 0 {
      var b := keys[0].0;
      var first := ReportKey(e, now, b, keys[0].1);
      ReportKeyEdges(e, now, b, keys[0].1);
      assert first.1 == (if before[b] != now[b] then [Event(keys[0].1, now[b])] else []);
      var tail := keys[1..];
      assert forall j | 0 <= j < |tail| :: tail[j].0 != b && tail[j] == keys[j + 1];
      ReportAllReportsChanges(first.0, before, now, tail);
      assert b !in ButtonsOf(tail);
    }
  }

  /** The map reports exactly the buttons other than bit 0. */
  lemma KeyMapButtons(ver: u32)
    ensures forall i: nat :: i in ButtonsOf(KeyMap(ver)) <==> 1 <= i < 16
  {
    KeyMapShape(ver);
    forall i | 1 <= i < 16 ensures i in ButtonsOf(KeyMap(ver)) {
      var j := PositionOf(ver, i);
      assert KeyMap(ver)[j].0 as nat == i;
    }
  }

  /** The recorded state tracks mask `m` on every reported button. */
  predicate Tracks(e: Edges, m: Mask) {
    forall b: Button | b != 0 :: Agrees(e, m, b)
  }

  /** One pass over the key map, on any version, emits exactly the
      changes between the before and the now mask and leaves the state
      tracking the now mask. */
  lemma ReportPass(e: Edges, before: Mask, now: Mask, ver: u32)
    requires Tracks(e, before)
    ensures ReportAll(e, now, KeyMap(ver)).1 == Changes(before, now, KeyMap(ver))
    ensures Tracks(ReportAll(e, now, KeyMap(ver)).0, now)
  {
    var keys := KeyMap(ver);
    KeyMapShape(ver);
    ReportAllReportsChanges(e, before, now, keys);
    var result := ReportAll(e, now, keys).0;
    forall b: Button | b != 0 ensures Agrees(result, now, b) {
      var j := PositionOf(ver, b);
    }
  }

  /** A pass reports nothing exactly when no reported button changed. */
  lemma {:induction false} ChangesEmpty(before: Mask, now: Mask, keys: seq<(Button, KeyCode)>)
    ensures Changes(before, now, keys) == [] <==> forall j | 0 <= j < |keys| :: before[keys[j].0] == now[keys[j].0]
  {
    if |keys| > 0 {
      ChangesEmpty(before, now, keys[1..]);
      assert forall j | 0 <= j < |keys| - 1 :: keys[1..][j] == keys[j + 1];
    }
  }

  /** The keypad driver's persistent state: the hardware version, the
      pending hotkey, the lock flag, the last mask reported (`pre`) and
      `report_key`'s masks. */
  datatype Driver = Driver(ver: u32, hotkey: u32, lockkey: u32, pre: Mask, edges: Edges)

  /** The state at module load. */
  const Loaded: Driver := Driver(1, 0, 0, Empty, InitialEdges)

  /** The version is at least 1, the pending hotkey is one of the four
      codes or none, and the recorded edges track the last mask. */
  predicate Inv(d: Driver) {
    d.ver >= 1 && d.hotkey <= 4 && Tracks(d.edges, d.pre)
  }

  lemma LoadedInv()
    ensures Inv(Loaded)
  {
  }

  /** One timer tick after sampling: transform the sample and, when it
      differs from the last mask, remember it and report every key. */
  function Scan(d: Driver, sampled: Mask): (r: (Driver, seq<Event>))
    ensures r.0.ver == d.ver && r.0.lockkey == d.lockkey
    ensures r.0.pre == Transform(d.lockkey, d.hotkey, sampled).val
    ensures r.0.hotkey == Transform(d.lockkey, d.hotkey, sampled).hotkey
  {
    var st := Transform(d.lockkey, d.hotkey, sampled);
    if d.pre != st.val then
      var pass := ReportAll(d.edges, st.val, KeyMap(d.ver));
      (Driver(d.ver, st.hotkey, d.lockkey, st.val, pass.0), pass.1)
    else (d.(hotkey := st.hotkey), [])
  }

  /** A tick keeps the invariant and emits exactly the key changes between
      the previous mask and the now one; a pending hotkey survives until
      it is read. */
  lemma ScanKeepsInv(d: Driver, sampled: Mask)
    requires Inv(d)
    ensures Inv(Scan(d, sampled).0)
    ensures Scan(d, sampled).1 == Changes(d.pre, Scan(d, sampled).0.pre, KeyMap(d.ver))
    ensures d.hotkey != 0 ==> Scan(d, sampled).0.hotkey == d.hotkey
  {
    var st := Transform(d.lockkey, d.hotkey, sampled);
    if d.pre != st.val {
      ReportPass(d.edges, d.pre, st.val, d.ver);
    } else {
      ChangesEmpty(d.pre, st.val, KeyMap(d.ver));
    }
  }

  /** The `myioctl` commands. */
  datatype Command = GetHotkey | SetVer | LockKey | Unknown

  /** `myioctl`: reading the hotkey hands back the pending code and clears
      it; setting the version stores the argument, with 0 meaning version
      1; locking stores the argument; anything else changes nothing. The
      second component is the value copied to the caller, if any. */
  function Ioctl(d: Driver, cmd: Command, arg: u32): (r: (Driver, Option<u32>))
    ensures cmd == GetHotkey <==> r.1.Some?
    ensures r.1.Some? ==> r.1.value == d.hotkey && r.0 == d.(hotkey := 0)
    ensures cmd == SetVer ==> r.0 == d.(ver := if arg == 0 then 1 else arg)
    ensures cmd == LockKey ==> r.0 == d.(lockkey := arg)
    ensures cmd == Unknown ==> r.0 == d
  {
    match cmd
    case GetHotkey => (d.(hotkey := 0), Some(d.hotkey))
    case SetVer => (d.(ver := if arg <= 0 then 1 else arg), None)
    case LockKey => (d.(lockkey := arg), None)
    case Unknown => (d, None)
  }

  /** Every command keeps the invariant, and no command touches the key
      state. */
  lemma IoctlKeepsInv(d: Driver, cmd: Command, arg: u32)
    requires Inv(d)
    ensures Inv(Ioctl(d, cmd, arg).0)
    ensures Ioctl(d, cmd, arg).0.pre == d.pre && Ioctl(d, cmd, arg).0.edges == d.edges
  {
  }

  /** After the hotkey is read, the next SELECT combination stores its
      own code again. */
  lemma HotkeyReadRearms(d: Driver, sampled: Mask)
    requires sampled == Only(Select)[B := true] && d.lockkey == 0
    ensures Scan(Ioctl(d, GetHotkey, 0).0, sampled).0.hotkey == 3
  {
    CountOfOnly(Select);
  }
}
