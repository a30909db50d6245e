/**
 * The keymap's file-level state and its two state-changing hooks, run in
 * place against the host RGB driver. Each hook is proved to take the state
 * exactly where the matching function of `RgbOverride` says.
 */
module Keymap {
  import opened Qmk
  import opened Layers
  import opened RgbDriver
  import opened RgbOverride

  class Keymap {
    var userConfig: uint32          // user_config.raw
    var eepromWrites: seq<uint32>   // words written by eeconfig_update_user
    var wasDisabled: bool           // rgb_matrix_was_disabled
    var previousMode: Mode          // previous_rgb_mode
    const rgb: RgbMatrix

    /** The file state and the driver state as one value. */
    function Snapshot(): State
      reads this, rgb
    {
      State(userConfig, eepromWrites, wasDisabled, previousMode, rgb.State())
    }

    /**
     * Zero-initialised statics, then `keyboard_post_init_user` reading the
     * configuration word `eeprom` from EEPROM.
     */
    constructor (eeprom: uint32, rgb: RgbMatrix)
      ensures this.rgb == rgb
      ensures Snapshot() == Boot(eeprom, rgb.State())
    {
      this.rgb := rgb;
      wasDisabled := false;
      previousMode := RGB_MATRIX_NONE;
      eepromWrites := [];
      userConfig := eeprom;
    }

    /** `layer_state_set_user` */
    method LayerStateSetUser(state: LayerState) returns (r: LayerState)
      modifies this, rgb
      ensures r == state
      ensures Snapshot() == LayerChange(old(Snapshot()), state)
    {
      if OverrideOn(userConfig) && GetRgbLayer(state) > 0 {
        var on := rgb.IsEnabled();
        if !on {
          wasDisabled := true;
          rgb.EnableNoEeprom();
        } else {
          previousMode := rgb.GetMode();
          rgb.ModeNoEeprom(RGB_MATRIX_NONE);
        }
      } else {
        if wasDisabled {
          rgb.DisableNoEeprom();
          wasDisabled := false;
        } else {
          rgb.ModeNoEeprom(previousMode);
        }
      }
      r := state;
    }

    /**
     * `process_record_user`; `common` is what `process_record_keychron_common`
     * returned for this event, `tapped` the keycode sent with `tap_code16`.
     */
    method ProcessRecordUser(keycode: uint16, record: KeyRecord, common: bool)
      returns (proceed: bool, tapped: Option<uint16>)
      modifies this, rgb
      ensures KeyOutcome(Snapshot(), proceed, tapped) == KeyEvent(old(Snapshot()), rgb.effects, keycode, record, common)
    {
      tapped := None;
      if !common {
        return false, None;
      }
      if keycode == CAPS_MOD_TAP {
        if record.tapCount > 0 && record.pressed {
          tapped := Some(GUI_SPACE);
          return false, tapped;
        }
      } else if keycode == RGB_TOG {
        if record.pressed {
          if wasDisabled {
            wasDisabled := false;
            rgb.DisableNoEeprom();
          }
        }
      } else if keycode == RGB_RMOD {
        rgb.StepReverse();
        previousMode := rgb.GetMode();
        return false, None;
      } else if keycode == RGB_MOD {
        rgb.Step();
        previousMode := rgb.GetMode();
        return false, None;
      } else if keycode == CST_RGBOVRRD {
        if record.pressed {
          userConfig := ToggleOverride(userConfig);
          eepromWrites := eepromWrites + [userConfig];
        }
        return false, None;
      } else if keycode == CST_RGB_M1 {
        previousMode := rgb.effects.typingHeatmap;
        return false, None;
      } else if keycode == CST_RGB_M2 {
        previousMode := rgb.effects.splash;
        return false, None;
      }
      proceed := true;
    }
  }
}
