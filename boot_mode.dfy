/**
 * `previous_rgb_mode` starts at 0 (RGB_MATRIX_NONE) and
 * `keyboard_post_init_user` only reads the configuration word, while the
 * non-forcing branch of `layer_state_set_user` installs `previous_rgb_mode`
 * on every layer change. So with the override off, the first layer change
 * after boot (pressing Fn) replaces the running effect by NONE.
 *
 * `Boot` models the post-init as written. `BootKeepingMode` is the evidently
 * intended one: it also saves the live mode, as the key hook does after
 * every mode change.
 */
module BootMode {
  import opened Qmk
  import opened Layers
  import opened RgbDriver
  import opened RgbOverride

  /** As written: a layer change that does not force the lighting, right after boot, sets the mode to NONE. */
  lemma BootLayerChangeResetsMode(eeprom: uint32, rgb: RgbState, layers: LayerState)
    requires !Forcing(Boot(eeprom, rgb), layers)
    ensures LayerChange(Boot(eeprom, rgb), layers).rgb == rgb.(mode := RGB_MATRIX_NONE)
  {
  }

  /** The concrete input: override off, effect 7 running, Fn pressed (0x08; WIN_BASE is the default layer). */
  lemma BootFnExample()
    ensures var s := Boot(0, RgbState(true, 7));
      LayerChange(s, 0x08).rgb.mode == RGB_MATRIX_NONE != s.rgb.mode
  {
    BootLayerChangeResetsMode(0, RgbState(true, 7), 0x08);
  }

  /** The corrected post-init: read the configuration word and save the live mode. */
  function BootKeepingMode(eeprom: uint32, rgb: RgbState): (s: State)
    ensures s.userConfig == eeprom && s.eepromWrites == [] && s.rgb == rgb
    ensures !s.wasDisabled && s.previousMode == rgb.mode
  {
    Boot(eeprom, rgb).(previousMode := rgb.mode)
  }

  /** With the override off and the live mode saved, layer changes change nothing. */
  lemma {:induction false} SavedModeSurvivesLayerChanges(s: State, ls: seq<LayerState>)
    requires !OverrideOn(s.userConfig) && !s.wasDisabled && s.previousMode == s.rgb.mode
    ensures RunLayers(s, ls) == s
    decreases |ls|
  {
    if ls != [] {
      assert LayerChange(s, ls[0]) == s;
      SavedModeSurvivesLayerChanges(s, ls[1..]);
    }
  }

  /** Corrected: with the override off, no sequence of layer changes after boot touches the lighting. */
  lemma BootKeepingModeKeepsEffect(eeprom: uint32, rgb: RgbState, ls: seq<LayerState>)
    requires !OverrideOn(eeprom)
    ensures RunLayers(BootKeepingMode(eeprom, rgb), ls).rgb == rgb
  {
    SavedModeSurvivesLayerChanges(BootKeepingMode(eeprom, rgb), ls);
  }

  /** Corrected, on the concrete input. */
  lemma BootKeepingModeExample()
    ensures LayerChange(BootKeepingMode(0, RgbState(true, 7)), 0x08).rgb == RgbState(true, 7)
  {
    BootKeepingModeKeepsEffect(0, RgbState(true, 7), [0x08]);
  }
}
