/**
 * The per-key colour rule of the indicator hook: the sparse `key_rgb_map`
 * table, indexed by keycode, and the choice between a key's own colour, the
 * layer's colour and "off".
 */
module KeyColors {
  import opened Qmk

  /** Number of slots of `key_rgb_map`: one past its largest designated index. */
  const KeyRgbMapSize: nat := CST_RGBOVRRD + 1

  /** `key_rgb_map`: the designated entries, zero everywhere else. */
  function KeyRgbEntry(key: nat): Rgb
    requires key < KeyRgbMapSize
  {
    if key == KC_SYSTEM_SLEEP then RGB_RED
    else if key == CtrlGui(KC_LEFT as uint8) || key == CtrlGui(KC_RIGHT as uint8) then RGB_BLUE
    else if key == KC_MPLY || key == KC_MPRV || key == KC_MNXT then RGB_AZURE
    else if key == CST_RGBOVRRD || key == RGB_TOG then RGB_PURPLE
    else Black
  }

  /** The table's bounds check and "not black" test together. */
  predicate HasKeyColor(key: nat) {
    key < KeyRgbMapSize && NonBlack(KeyRgbEntry(key))
  }

  /**
   * Colour of one key on a lit layer whose colour is `layerColor`: off for
   * KC_NO and KC_TRNS, the key's own non-black entry when it has one, the
   * layer colour otherwise.
   */
  function KeyColor(layerColor: Rgb, key: uint16): (c: Rgb)
    ensures key <= KC_TRNS ==> c == RGB_OFF
    ensures key > KC_TRNS && HasKeyColor(key) ==> c == KeyRgbEntry(key)
    ensures key > KC_TRNS && !HasKeyColor(key) ==> c == layerColor
  {
    if key > KC_TRNS then
      if HasKeyColor(key) then KeyRgbEntry(key) else layerColor
    else
      RGB_OFF
  }

  /** On a lit layer a key is dark exactly when it is KC_NO or KC_TRNS. */
  lemma KeyIsDarkIffEmpty(layerColor: Rgb, key: uint16)
    requires NonBlack(layerColor)
    ensures !NonBlack(KeyColor(layerColor, key)) <==> key <= KC_TRNS
  {
  }

  /** The keys the table colours, and their colours. */
  lemma KeyColorsOfTheTable(layerColor: Rgb)
    ensures KeyColor(layerColor, KC_SYSTEM_SLEEP) == RGB_RED
    ensures KeyColor(layerColor, CtrlGui(KC_LEFT as uint8)) == RGB_BLUE
    ensures KeyColor(layerColor, CtrlGui(KC_RIGHT as uint8)) == RGB_BLUE
    ensures KeyColor(layerColor, KC_MPLY) == RGB_AZURE
    ensures KeyColor(layerColor, KC_MPRV) == RGB_AZURE
    ensures KeyColor(layerColor, KC_MNXT) == RGB_AZURE
    ensures KeyColor(layerColor, CST_RGBOVRRD) == RGB_PURPLE
    ensures KeyColor(layerColor, RGB_TOG) == RGB_PURPLE
    ensures KeyColor(layerColor, RGB_MOD) == layerColor
    ensures KeyColor(layerColor, CST_RGB_M1) == layerColor
  {
  }
}
