/**
 * Host-framework vocabulary the keymap is written against: fixed-width
 * integers, the three-byte colour record and the keycode numbers the keymap's
 * switch and colour table mention.
 *
 * The keycode numbers are those of QMK's keycode headers (basic, media and
 * modifier-wrapped keycodes, the underglow/RGB block and the user range that
 * starts at SAFE_RANGE); those headers are not part of this model.
 */
module Qmk {

  type uint8 = x: int | 0 <= x < 0x100
  type uint16 = x: int | 0 <= x < 0x1_0000
  type uint32 = x: int | 0 <= x < 0x1_0000_0000

  datatype Option<T> = None | Some(value: T)

  /** `struct rgb_t`: one byte per channel. */
  datatype Rgb = Rgb(r: uint8, g: uint8, b: uint8)

  /** The "not black" test the keymap applies to every table entry. */
  predicate NonBlack(c: Rgb) {
    c.r > 0 || c.g > 0 || c.b > 0
  }

  /** Black: what a zero-initialised table slot holds, and RGB_OFF. */
  const Black: Rgb := Rgb(0, 0, 0)

  // Colour macros used by the keymap's tables.
  const RGB_OFF: Rgb := Black
  const RGB_RED: Rgb := Rgb(0xFF, 0x00, 0x00)
  const RGB_YELLOW: Rgb := Rgb(0xFF, 0xFF, 0x00)
  const RGB_BLUE: Rgb := Rgb(0x00, 0x00, 0xFF)
  const RGB_AZURE: Rgb := Rgb(0x99, 0xF5, 0xFF)
  const RGB_PURPLE: Rgb := Rgb(0x7A, 0x00, 0xFF)

  // Basic and media keycodes.
  const KC_NO: uint16 := 0x0000
  const KC_TRNS: uint16 := 0x0001
  const KC_SPC: uint16 := 0x002C
  const KC_RIGHT: uint16 := 0x004F
  const KC_LEFT: uint16 := 0x0050
  const KC_SYSTEM_SLEEP: uint16 := 0x00A6
  const KC_MNXT: uint16 := 0x00AB
  const KC_MPRV: uint16 := 0x00AC
  const KC_MPLY: uint16 := 0x00AE

  // Modifier wrappers: C(kc) and G(kc) set the left Ctrl / left GUI bit.
  const QK_LCTL: uint16 := 0x0100
  const QK_LGUI: uint16 := 0x0800

  /** C(G(kc)) for a basic keycode. */
  function CtrlGui(kc: uint8): uint16 {
    QK_LCTL + QK_LGUI + kc
  }

  /**
   * LCTL_T(kc): a mod-tap keycode keeps only the low byte of `kc`, so
   * LCTL_T(G(KC_SPC)) is the same number as LCTL_T(KC_SPC); this is why the
   * keymap sends G(KC_SPC) itself on a tap.
   */
  const QK_MOD_TAP: uint16 := 0x2000
  function LctlTap(kc: uint16): uint16 {
    QK_MOD_TAP + QK_LCTL + kc % 0x100
  }

  // RGB keycodes handled by the keymap.
  const RGB_TOG: uint16 := 0x7820
  const RGB_MOD: uint16 := 0x7821
  const RGB_RMOD: uint16 := 0x7822

  /** First keycode free for the keymap's own `custom_keycodes` enum. */
  const SAFE_RANGE: uint16 := 0x7E40
  const CST_RGBOVRRD: uint16 := SAFE_RANGE
  const CST_RGB_M1: uint16 := SAFE_RANGE + 1
  const CST_RGB_M2: uint16 := SAFE_RANGE + 2
}
