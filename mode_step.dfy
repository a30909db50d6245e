/**
 * RGB_MOD and RGB_RMOD are handled in `process_record_user` without looking
 * at `record->event.pressed`, so the hook steps the effect on the key's press
 * and again on its release: one keystroke moves two effects on.
 *
 * `KeyEvent` models the hook as written. `KeyEventStepOnPress` is the
 * evidently intended hook: it steps on the press only and consumes the
 * release.
 */
module ModeStep {
  import opened Qmk
  import opened RgbDriver
  import opened RgbOverride

  /** The outcome of pressing and then releasing `keycode`, with the common hook passing both events on. */
  function Stroke(s: State, fx: Effects, keycode: uint16, taps: nat): KeyOutcome {
    KeyEvent(KeyEvent(s, fx, keycode, KeyRecord(true, taps), true).state, fx, keycode, KeyRecord(false, taps), true)
  }

  /** As written: one keystroke of RGB_MOD / RGB_RMOD steps the effect twice. */
  lemma StrokeStepsTwice(s: State, fx: Effects, taps: nat)
    ensures var o := Stroke(s, fx, RGB_MOD, taps);
      o.state.rgb.mode == o.state.previousMode == fx.step(fx.step(s.rgb.mode))
    ensures var o := Stroke(s, fx, RGB_RMOD, taps);
      o.state.rgb.mode == o.state.previousMode == fx.stepReverse(fx.stepReverse(s.rgb.mode))
  {
    ModeStepKeys(s, fx, KeyRecord(true, taps));
    ModeStepKeys(KeyEvent(s, fx, RGB_MOD, KeyRecord(true, taps), true).state, fx, KeyRecord(false, taps));
    ModeStepKeys(KeyEvent(s, fx, RGB_RMOD, KeyRecord(true, taps), true).state, fx, KeyRecord(false, taps));
  }

  /** The concrete input: effects numbered in order, effect 3 running, one RGB_MOD keystroke lands on 5. */
  lemma StrokeStepsTwiceExample()
    ensures var fx := Effects(m => if m < 255 then m + 1 else 1, m => if m > 1 then m - 1 else 255, 1, 2);
      Stroke(State(0, [], false, 3, RgbState(true, 3)), fx, RGB_MOD, 0).state.rgb.mode == 5
  {
  }

  /** The corrected hook: RGB_MOD and RGB_RMOD step on the press and only consume the release. */
  function KeyEventStepOnPress(s: State, fx: Effects, keycode: uint16, record: KeyRecord, common: bool): (o: KeyOutcome)
    ensures common && keycode in {RGB_MOD, RGB_RMOD} ==> !o.proceed && o.tapped == None
    ensures common && keycode in {RGB_MOD, RGB_RMOD} && !record.pressed ==> o.state == s
  {
    if common && (keycode == RGB_MOD || keycode == RGB_RMOD) && !record.pressed then
      KeyOutcome(s, false, None)
    else
      KeyEvent(s, fx, keycode, record, common)
  }

  /** Press then release under the corrected hook. */
  function StrokeStepOnPress(s: State, fx: Effects, keycode: uint16, taps: nat): KeyOutcome {
    KeyEventStepOnPress(KeyEventStepOnPress(s, fx, keycode, KeyRecord(true, taps), true).state,
                        fx, keycode, KeyRecord(false, taps), true)
  }

  /** Corrected: one keystroke of RGB_MOD / RGB_RMOD steps the effect once and records it as the mode to restore. */
  lemma StrokeStepsOnce(s: State, fx: Effects, taps: nat)
    ensures StrokeStepOnPress(s, fx, RGB_MOD, taps) ==
      KeyOutcome(s.(rgb := s.rgb.(mode := fx.step(s.rgb.mode)), previousMode := fx.step(s.rgb.mode)), false, None)
    ensures StrokeStepOnPress(s, fx, RGB_RMOD, taps) ==
      KeyOutcome(s.(rgb := s.rgb.(mode := fx.stepReverse(s.rgb.mode)), previousMode := fx.stepReverse(s.rgb.mode)), false, None)
  {
    ModeStepKeys(s, fx, KeyRecord(true, taps));
  }

  /** Every other event is handled by the corrected hook exactly as written. */
  lemma StepOnPressAgreesElsewhere(s: State, fx: Effects, keycode: uint16, record: KeyRecord, common: bool)
    requires !(common && keycode in {RGB_MOD, RGB_RMOD} && !record.pressed)
    ensures KeyEventStepOnPress(s, fx, keycode, record, common) == KeyEvent(s, fx, keycode, record, common)
  {
  }
}
