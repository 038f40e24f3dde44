/** Slave's virtual keyboard (the Linux half of src/input/inject.cpp). The device is write-only,
    so the injector keeps a shadow of the four modifiers, left and right sharing one bit. */
module Injector {
  import opened Common

  const LEFT_SHIFT: nat := 42
  const LEFT_CTRL: nat := 29
  const LEFT_ALT: nat := 56
  const LEFT_META: nat := 125
  const RIGHT_SHIFT: nat := 54
  const RIGHT_CTRL: nat := 97
  const RIGHT_ALT: nat := 100
  const RIGHT_META: nat := 126

  // The extended scancodes of the arrow and navigation keys, and the key codes of Linux.
  const HOME: nat := 0x47
  const UP: nat := 0x48
  const PAGE_UP: nat := 0x49
  const LEFT: nat := 0x4B
  const RIGHT: nat := 0x4D
  const END: nat := 0x4F
  const DOWN: nat := 0x50
  const PAGE_DOWN: nat := 0x51
  const INSERT: nat := 0x52
  const DELETE: nat := 0x53

  const KEY_KP_ENTER: nat := 96
  const KEY_KP_SLASH: nat := 98
  const KEY_HOME: nat := 102
  const KEY_UP: nat := 103
  const KEY_PAGE_UP: nat := 104
  const KEY_LEFT: nat := 105
  const KEY_RIGHT: nat := 106
  const KEY_END: nat := 107
  const KEY_DOWN: nat := 108
  const KEY_PAGE_DOWN: nat := 109
  const KEY_INSERT: nat := 110
  const KEY_DELETE: nat := 111
  const KEY_COMPOSE: nat := 127

  /** The four keys that a modifier sync presses and releases by itself. */
  const SYNCED: set<nat> := {LEFT_SHIFT, LEFT_CTRL, LEFT_ALT, LEFT_META}

  /** What the device reports as down, and the shadow. */
  datatype Keyboard = Keyboard(down: set<nat>, shadow: set<nat>)

  const EXTENDED: map<nat, nat> := map[
    0x1C := 96, 0x1D := RIGHT_CTRL, 0x35 := 98, 0x38 := RIGHT_ALT, 0x47 := 102, 0x48 := 103, 0x49 := 104,
    0x4B := 105, 0x4D := 106, 0x4F := 107, 0x50 := 108, 0x51 := 109, 0x52 := 110, 0x53 := 111,
    0x5B := LEFT_META, 0x5C := RIGHT_META, 0x5D := 127]

  /** The key code for a scancode; `None` means the key is dropped. */
  function Code(scancode: nat, extended: bool): Option<nat> {
    if extended then (if scancode in EXTENDED then Some(EXTENDED[scancode]) else None)
    else if 1 <= scancode <= 88 then Some(scancode) else None
  }

  function ModifierBit(code: nat): Option<nat> {
    if code == LEFT_SHIFT || code == RIGHT_SHIFT then Some(0)
    else if code == LEFT_CTRL || code == RIGHT_CTRL then Some(1)
    else if code == LEFT_ALT || code == RIGHT_ALT then Some(2)
    else if code == LEFT_META || code == RIGHT_META then Some(3)
    else None
  }

  function Put(s: set<nat>, x: nat, isIn: bool): set<nat> { if isIn then s + {x} else s - {x} }

  function InjectKey(k: Keyboard, scancode: nat, down: bool, extended: bool): Keyboard {
    match Code(scancode, extended)
    case None => k
    case Some(code) =>
      Keyboard(Put(k.down, code, down),
               match ModifierBit(code) case None => k.shadow case Some(bit) => Put(k.shadow, bit, down))
  }

  const MODIFIERS: seq<nat> := [LEFT_SHIFT, LEFT_CTRL, LEFT_ALT, LEFT_META]

  function SetModifier(k: Keyboard, mask: set<nat>, bit: nat): Keyboard
    requires bit < 4
  {
    if (bit in mask) == (bit in k.shadow) then k
    else Keyboard(Put(k.down, MODIFIERS[bit], bit in mask), Put(k.shadow, bit, bit in mask))
  }

  function SetModifiersUpTo(k: Keyboard, mask: set<nat>, n: nat): Keyboard
    requires n <= 4
  {
    if n == 0 then k else SetModifier(SetModifiersUpTo(k, mask, n - 1), mask, n - 1)
  }

  function SetModifiers(k: Keyboard, mask: set<nat>): Keyboard { SetModifiersUpTo(k, mask, 4) }

  class Injector {
    var down: set<nat>
    var shadow: set<nat>

    ghost function View(): Keyboard
      reads this
    {
      Keyboard(down, shadow)
    }

    constructor ()
      ensures View() == Keyboard({}, {})
    {
      down := {};
      shadow := {};
    }

    method Emit(code: nat, press: bool)
      modifies this`down
      ensures down == Put(old(down), code, press)
    {
      down := if press then down + {code} else down - {code};
    }

    method Key(scancode: nat, press: bool, extended: bool)
      modifies this
      ensures View() == InjectKey(old(View()), scancode, press, extended)
    {
      var code := Code(scancode, extended);
      if code == None {
        return;
      }
      Emit(code.value, press);
      var bit := ModifierBit(code.value);
      if bit.Some? {
        shadow := if press then shadow + {bit.value} else shadow - {bit.value};
      }
    }

    method Sync(mask: set<nat>)
      modifies this
      ensures View() == SetModifiers(old(View()), mask)
    {
      for bit := 0 to 4
        invariant View() == SetModifiersUpTo(old(View()), mask, bit)
      {
        var wantDown, isDown := bit in mask, bit in shadow;
        if wantDown != isDown {
          Emit(MODIFIERS[bit], wantDown);
          shadow := if wantDown then shadow + {bit} else shadow - {bit};
        }
      }
    }
  }

  /** After a sync the shadow is the mask, and only the left-hand modifiers were touched. */
  lemma {:induction false} SyncSetsShadow(k: Keyboard, mask: set<nat>, n: nat)
    requires n <= 4
    ensures var t := SetModifiersUpTo(k, mask, n);
            && (forall b: nat :: b in t.shadow <==> if b < n then b in mask else b in k.shadow)
            && (forall c: nat :: c in t.down <==>
                  if c in MODIFIERS[..n] && (ModifierBit(c).value in mask) != (ModifierBit(c).value in k.shadow)
                  then ModifierBit(c).value in mask else c in k.down)
  {
    if n > 0 {
      SyncSetsShadow(k, mask, n - 1);
      assert MODIFIERS[..n] == MODIFIERS[..n - 1] + [MODIFIERS[n - 1]];
    }
  }

  /** Which key is which: a key without the extended prefix has the same number on both sides, and of
      those with it each goes to its namesake: these, and the rest below. */
  lemma KeysKeepTheirNames(scancode: nat)
    ensures Code(scancode, false) == if 1 <= scancode <= 88 then Some(scancode) else None
    ensures Code(UP, true) == Some(KEY_UP) && Code(DOWN, true) == Some(KEY_DOWN)
    ensures Code(LEFT, true) == Some(KEY_LEFT) && Code(RIGHT, true) == Some(KEY_RIGHT)
    ensures Code(HOME, true) == Some(KEY_HOME) && Code(END, true) == Some(KEY_END)
    ensures Code(PAGE_UP, true) == Some(KEY_PAGE_UP) && Code(PAGE_DOWN, true) == Some(KEY_PAGE_DOWN)
    ensures Code(INSERT, true) == Some(KEY_INSERT) && Code(DELETE, true) == Some(KEY_DELETE)
  {
  }

  lemma TheRestToo()
    ensures Code(0x1C, true) == Some(KEY_KP_ENTER) && Code(0x35, true) == Some(KEY_KP_SLASH) && Code(0x5D, true) == Some(KEY_COMPOSE)
    ensures Code(0x1D, true) == Some(RIGHT_CTRL) && Code(0x38, true) == Some(RIGHT_ALT)
    ensures Code(0x5B, true) == Some(LEFT_META) && Code(0x5C, true) == Some(RIGHT_META)
  {
  }

  /** The modifiers: left and right share a bit, and no other key has one. */
  lemma ModifiersAre(code: nat)
    ensures ModifierBit(code) == if code in {42, 54} then Some(0) else if code in {29, 97} then Some(1)
                                 else if code in {56, 100} then Some(2) else if code in {125, 126} then Some(3) else None
    ensures forall b: nat | b < 4 :: ModifierBit(MODIFIERS[b]) == Some(b)
  {
  }

  /** No other key with the extended prefix does anything. */
  lemma NoOtherKeys(scancode: nat)
    ensures Code(scancode, true).Some? ==>
              || scancode in [UP, DOWN, LEFT, RIGHT, HOME, END, PAGE_UP, PAGE_DOWN, INSERT, DELETE]
              || scancode in [0x1C, 0x1D, 0x35, 0x38, 0x5B, 0x5C, 0x5D]
  {
  }

  /** No two keys share a code, so what is released is what was pressed. */
  lemma CodesAreDistinct(a: nat, x: bool, b: nat, y: bool)
    requires Code(a, x).Some? && Code(a, x) == Code(b, y)
    ensures a == b && x == y
  {
    if x {
      assert a in [0x1C, 0x1D, 0x35, 0x38, 0x47, 0x48, 0x49, 0x4B, 0x4D, 0x4F, 0x50, 0x51, 0x52, 0x53, 0x5B, 0x5C, 0x5D];
    }
  }
}
