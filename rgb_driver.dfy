/**
 * The host's RGB Matrix driver as the keymap sees it: an enabled flag, the
 * live effect mode, and the calls the keymap makes. How the driver steps to
 * the next or previous effect, and which numbers its effects have, are the
 * host's business and enter as the `Effects` record.
 */
module RgbDriver {
  import opened Qmk

  /** An effect mode number (`rgb_matrix_get_mode`). */
  type Mode = uint8

  /** `RGB_MATRIX_NONE`, the first entry of the host's effect enum. */
  const RGB_MATRIX_NONE: Mode := 0

  /** What the host decides about effects: the stepping order and two effect ids. */
  datatype Effects = Effects(
    step: Mode -> Mode,         // rgb_matrix_step
    stepReverse: Mode -> Mode,  // rgb_matrix_step_reverse
    typingHeatmap: Mode,        // RGB_MATRIX_TYPING_HEATMAP
    splash: Mode)               // RGB_MATRIX_SPLASH

  /** The driver state the keymap reads and writes. */
  datatype RgbState = RgbState(enabled: bool, mode: Mode)

  class RgbMatrix {
    var enabled: bool
    var mode: Mode
    const effects: Effects

    function State(): RgbState
      reads this
    {
      RgbState(enabled, mode)
    }

    constructor (enabled: bool, mode: Mode, effects: Effects)
      ensures State() == RgbState(enabled, mode) && this.effects == effects
    {
      this.enabled := enabled;
      this.mode := mode;
      this.effects := effects;
    }

    /** `rgb_matrix_is_enabled` */
    method IsEnabled() returns (on: bool)
      ensures on == enabled
    {
      on := enabled;
    }

    /** `rgb_matrix_enable_noeeprom` */
    method EnableNoEeprom()
      modifies this
      ensures State() == old(State()).(enabled := true)
    {
      enabled := true;
    }

    /** `rgb_matrix_disable_noeeprom` */
    method DisableNoEeprom()
      modifies this
      ensures State() == old(State()).(enabled := false)
    {
      enabled := false;
    }

    /** `rgb_matrix_get_mode` */
    method GetMode() returns (m: Mode)
      ensures m == mode
    {
      m := mode;
    }

    /** `rgb_matrix_mode_noeeprom` */
    method ModeNoEeprom(m: Mode)
      modifies this
      ensures State() == old(State()).(mode := m)
    {
      mode := m;
    }

    /** `rgb_matrix_step` */
    method Step()
      modifies this
      ensures State() == old(State()).(mode := effects.step(old(mode)))
    {
      mode := effects.step(mode);
    }

    /** `rgb_matrix_step_reverse` */
    method StepReverse()
      modifies this
      ensures State() == old(State()).(mode := effects.stepReverse(old(mode)))
    {
      mode := effects.stepReverse(mode);
    }
  }
}
