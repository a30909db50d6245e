/**
 * The "RGB on layer" state machine of the keymap, on values: the file-level
 * state (the persisted user configuration word, the two statics) together
 * with the driver state, and what the layer-change hook and the key-event
 * hook do to it. The `Keymap` class runs the same steps in place and is
 * proved against these functions.
 */
module RgbOverride {
  import opened Qmk
  import opened Layers
  import opened RgbDriver

  /**
   * `userConfig` is `user_config.raw`; `layer_rgb_override` is its bit 0.
   * `eepromWrites` records every word handed to `eeconfig_update_user`.
   */
  datatype State = State(
    userConfig: uint32,
    eepromWrites: seq<uint32>,
    wasDisabled: bool,     // rgb_matrix_was_disabled
    previousMode: Mode,    // previous_rgb_mode
    rgb: RgbState)

  /** `user_config.layer_rgb_override` */
  predicate OverrideOn(raw: uint32) {
    raw % 2 == 1
  }

  /** `user_config.layer_rgb_override ^= 1` on the raw word: flip bit 0, keep the rest. */
  function ToggleOverride(raw: uint32): (r: uint32)
    ensures OverrideOn(r) != OverrideOn(raw)
    ensures r / 2 == raw / 2
  {
    if raw % 2 == 1 then raw - 1 else raw + 1
  }

  /** The static state right after `keyboard_post_init_user` read `eeprom`. */
  function Boot(eeprom: uint32, rgb: RgbState): (s: State)
    ensures s.userConfig == eeprom && s.eepromWrites == []
    ensures !s.wasDisabled && s.previousMode == RGB_MATRIX_NONE && s.rgb == rgb
  {
    State(eeprom, [], false, RGB_MATRIX_NONE, rgb)
  }

  /** The condition of the first branch of `layer_state_set_user`. */
  predicate Forcing(s: State, layers: LayerState) {
    OverrideOn(s.userConfig) && GetRgbLayer(layers) > 0
  }

  /** The state after `layer_state_set_user(layers)`. */
  function LayerChange(s: State, layers: LayerState): (r: State)
    ensures r.userConfig == s.userConfig && r.eepromWrites == s.eepromWrites
    ensures !Forcing(s, layers) ==> !r.wasDisabled
    ensures Forcing(s, layers) ==> r.rgb.enabled
  {
    if Forcing(s, layers) then
      if !s.rgb.enabled then
        s.(wasDisabled := true, rgb := s.rgb.(enabled := true))
      else
        s.(previousMode := s.rgb.mode, rgb := s.rgb.(mode := RGB_MATRIX_NONE))
    else
      if s.wasDisabled then
        s.(rgb := s.rgb.(enabled := false), wasDisabled := false)
      else
        s.(rgb := s.rgb.(mode := s.previousMode))
  }

  /** `keyrecord_t` as far as the hook reads it. */
  datatype KeyRecord = KeyRecord(pressed: bool, tapCount: nat)

  /** What `process_record_user` leaves behind. */
  datatype KeyOutcome = KeyOutcome(
    state: State,
    proceed: bool,          // the hook's return value: let the host process the key
    tapped: Option<uint16>) // a keycode sent with tap_code16, if any

  /** The mod-tap keycode on the Caps Lock position of WIN_BASE. */
  const CAPS_MOD_TAP: uint16 := LctlTap(QK_LGUI + KC_SPC)
  /** G(KC_SPC), sent when that key is tapped. */
  const GUI_SPACE: uint16 := QK_LGUI + KC_SPC

  /**
   * The outcome of `process_record_user(keycode, record)` when the common
   * Keychron hook returned `common`.
   */
  function KeyEvent(s: State, fx: Effects, keycode: uint16, record: KeyRecord, common: bool): (o: KeyOutcome)
    ensures o.state.userConfig != s.userConfig ==> keycode == CST_RGBOVRRD && record.pressed
    ensures o.tapped.Some? ==> o.tapped.value == GUI_SPACE && !o.proceed
    ensures o.tapped.Some? ==> common && keycode == CAPS_MOD_TAP && record.pressed && record.tapCount > 0
  {
    if !common then
      KeyOutcome(s, false, None)
    else if keycode == CAPS_MOD_TAP then
      if record.tapCount > 0 && record.pressed then KeyOutcome(s, false, Some(GUI_SPACE))
      else KeyOutcome(s, true, None)
    else if keycode == RGB_TOG then
      if record.pressed && s.wasDisabled then
        KeyOutcome(s.(wasDisabled := false, rgb := s.rgb.(enabled := false)), true, None)
      else KeyOutcome(s, true, None)
    else if keycode == RGB_RMOD then
      var m := fx.stepReverse(s.rgb.mode);
      KeyOutcome(s.(rgb := s.rgb.(mode := m), previousMode := m), false, None)
    else if keycode == RGB_MOD then
      var m := fx.step(s.rgb.mode);
      KeyOutcome(s.(rgb := s.rgb.(mode := m), previousMode := m), false, None)
    else if keycode == CST_RGBOVRRD then
      if record.pressed then
        var raw := ToggleOverride(s.userConfig);
        KeyOutcome(s.(userConfig := raw, eepromWrites := s.eepromWrites + [raw]), false, None)
      else KeyOutcome(s, false, None)
    else if keycode == CST_RGB_M1 then
      KeyOutcome(s.(previousMode := fx.typingHeatmap), false, None)
    else if keycode == CST_RGB_M2 then
      KeyOutcome(s.(previousMode := fx.splash), false, None)
    else
      KeyOutcome(s, true, None)
  }

  /** The keycodes the hook's switch handles. */
  predicate Handled(keycode: uint16) {
    keycode in {CAPS_MOD_TAP, RGB_TOG, RGB_RMOD, RGB_MOD, CST_RGBOVRRD, CST_RGB_M1, CST_RGB_M2}
  }

  // ---------------------------------------------------------------------
  // Layer-change hook

  /** Override on, an RGB layer comes up, RGB is off: it is switched on and the mode is kept. */
  lemma ForcedOnWhenOff(s: State, layers: LayerState)
    requires OverrideOn(s.userConfig) && GetRgbLayer(layers) > 0 && !s.rgb.enabled
    ensures LayerChange(s, layers) == s.(wasDisabled := true, rgb := s.rgb.(enabled := true))
  {
  }

  /**
   * RGB forced on by an RGB layer is switched off again by the next change
   * to a layer that is not lit, and the tracker is cleared.
   */
  lemma ForcedOnThenLeave(s: State, enter: LayerState, leave: LayerState)
    requires OverrideOn(s.userConfig) && GetRgbLayer(enter) > 0 && !s.rgb.enabled
    requires GetRgbLayer(leave) == 0
    ensures var t := LayerChange(LayerChange(s, enter), leave);
      !t.rgb.enabled && !t.wasDisabled && t.rgb.mode == s.rgb.mode && t.previousMode == s.previousMode
  {
  }

  /** Override on, an RGB layer comes up, RGB is on: the mode is saved and the live mode is NONE. */
  lemma ModeSavedWhenOn(s: State, layers: LayerState)
    requires OverrideOn(s.userConfig) && GetRgbLayer(layers) > 0 && s.rgb.enabled
    ensures LayerChange(s, layers) == s.(previousMode := s.rgb.mode, rgb := s.rgb.(mode := RGB_MATRIX_NONE))
  {
  }

  /** One enter followed by one leave restores the mode that was live before. */
  lemma EnterLeaveRestoresMode(s: State, enter: LayerState, leave: LayerState)
    requires OverrideOn(s.userConfig) && GetRgbLayer(enter) > 0 && s.rgb.enabled && !s.wasDisabled
    requires GetRgbLayer(leave) == 0
    ensures LayerChange(LayerChange(s, enter), leave).rgb == s.rgb
  {
  }

  /** Outside the forcing branch the hook installs `previous_rgb_mode` unless it switches RGB off. */
  lemma NotForcingRestoresOrDisables(s: State, layers: LayerState)
    requires !Forcing(s, layers)
    ensures var r := LayerChange(s, layers);
      !r.wasDisabled &&
      (if s.wasDisabled then !r.rgb.enabled && r.rgb.mode == s.rgb.mode
       else r.rgb == s.rgb.(mode := s.previousMode))
  {
  }

  /**
   * A session from boot with the override on and RGB off: holding Fn
   * (WIN_FN, 0x08; WIN_BASE is the default layer and has no bit here) lights
   * the board, releasing it (0x00) returns to exactly the boot state.
   */
  lemma FnFlashFromDark()
    ensures var s := Boot(1, RgbState(false, 5));
      var up := LayerChange(s, 0x08);
      up.rgb == RgbState(true, 5) && up.wasDisabled && LayerChange(up, 0x00) == s
  {
  }

  // ---------------------------------------------------------------------
  // Key-event hook

  /** When the common hook consumes the event, nothing changes and the key is not processed further. */
  lemma CommonHookConsumes(s: State, fx: Effects, keycode: uint16, record: KeyRecord)
    ensures KeyEvent(s, fx, keycode, record, false) == KeyOutcome(s, false, None)
  {
  }

  /** Keycodes the switch does not handle pass through unchanged. */
  lemma UnhandledPassesThrough(s: State, fx: Effects, keycode: uint16, record: KeyRecord)
    requires !Handled(keycode)
    ensures KeyEvent(s, fx, keycode, record, true) == KeyOutcome(s, true, None)
  {
  }

  /** Pressing CST_RGBOVRRD flips the override flag, keeps the other bits, and persists the new word. */
  lemma OverrideKeyPress(s: State, fx: Effects, tapCount: nat)
    ensures var o := KeyEvent(s, fx, CST_RGBOVRRD, KeyRecord(true, tapCount), true);
      !o.proceed && o.tapped == None &&
      OverrideOn(o.state.userConfig) == !OverrideOn(s.userConfig) &&
      o.state.userConfig / 2 == s.userConfig / 2 &&
      o.state == s.(userConfig := o.state.userConfig, eepromWrites := s.eepromWrites + [o.state.userConfig])
  {
  }

  /** Releasing CST_RGBOVRRD changes nothing and is still consumed. */
  lemma OverrideKeyRelease(s: State, fx: Effects, tapCount: nat)
    ensures KeyEvent(s, fx, CST_RGBOVRRD, KeyRecord(false, tapCount), true) == KeyOutcome(s, false, None)
  {
  }

  /** Two presses of CST_RGBOVRRD restore the configuration word; both words were persisted. */
  lemma OverrideKeyTwice(s: State, fx: Effects, t1: nat, t2: nat)
    ensures var o1 := KeyEvent(s, fx, CST_RGBOVRRD, KeyRecord(true, t1), true);
      var o2 := KeyEvent(o1.state, fx, CST_RGBOVRRD, KeyRecord(true, t2), true);
      o2.state.userConfig == s.userConfig &&
      o2.state.eepromWrites == s.eepromWrites + [ToggleOverride(s.userConfig), s.userConfig] &&
      o2.state == s.(eepromWrites := o2.state.eepromWrites)
  {
  }

  /** RGB_MOD and RGB_RMOD step the live mode and record it as the mode to restore, on press and release. */
  lemma ModeStepKeys(s: State, fx: Effects, record: KeyRecord)
    ensures var o := KeyEvent(s, fx, RGB_MOD, record, true);
      !o.proceed && o.tapped == None &&
      o.state == s.(rgb := s.rgb.(mode := fx.step(s.rgb.mode)), previousMode := fx.step(s.rgb.mode))
    ensures var o := KeyEvent(s, fx, RGB_RMOD, record, true);
      !o.proceed && o.tapped == None &&
      o.state == s.(rgb := s.rgb.(mode := fx.stepReverse(s.rgb.mode)), previousMode := fx.stepReverse(s.rgb.mode))
  {
  }

  /** CST_RGB_M1 and CST_RGB_M2 only choose the mode to restore; the live mode is untouched. */
  lemma PresetModeKeys(s: State, fx: Effects, record: KeyRecord)
    ensures KeyEvent(s, fx, CST_RGB_M1, record, true) == KeyOutcome(s.(previousMode := fx.typingHeatmap), false, None)
    ensures KeyEvent(s, fx, CST_RGB_M2, record, true) == KeyOutcome(s.(previousMode := fx.splash), false, None)
  {
  }

  /**
   * RGB_TOG, pressed while RGB is only forced on, turns it off and clears the
   * tracker before the host's own toggle runs, so that toggle switches RGB on
   * for good; otherwise the hook leaves everything to the host.
   */
  lemma ToggleKey(s: State, fx: Effects, record: KeyRecord)
    ensures var o := KeyEvent(s, fx, RGB_TOG, record, true);
      o.proceed && o.tapped == None &&
      if record.pressed && s.wasDisabled then o.state == s.(wasDisabled := false, rgb := s.rgb.(enabled := false))
      else o.state == s
  {
  }

  /** A tap of the Caps Lock mod-tap sends GUI+Space and stops; a hold goes to the host. */
  lemma CapsModTap(s: State, fx: Effects, record: KeyRecord)
    ensures var o := KeyEvent(s, fx, CAPS_MOD_TAP, record, true);
      o.state == s &&
      (o.tapped == Some(GUI_SPACE) <==> record.pressed && record.tapCount > 0) &&
      (o.proceed <==> o.tapped == None)
  {
  }

  // ---------------------------------------------------------------------
  // Runs of hook calls

  /** One call of either hook. */
  datatype Event =
    | LayerSet(layers: LayerState)
    | Key(keycode: uint16, record: KeyRecord, common: bool)

  function Apply(s: State, fx: Effects, e: Event): State {
    match e
    case LayerSet(layers) => LayerChange(s, layers)
    case Key(keycode, record, common) => KeyEvent(s, fx, keycode, record, common).state
  }

  /** The state after the hooks handle `es` in order. */
  function Run(s: State, fx: Effects, es: seq<Event>): State
    decreases |es|
  {
    if es == [] then s else Run(Apply(s, fx, es[0]), fx, es[1..])
  }

  /** The state after the layer-change hook handles `ls` in order. */
  function RunLayers(s: State, ls: seq<LayerState>): State
    decreases |ls|
  {
    if ls == [] then s else RunLayers(LayerChange(s, ls[0]), ls[1..])
  }

  /** The tracker is set only while the hooks hold RGB on. */
  predicate Consistent(s: State) {
    s.wasDisabled ==> s.rgb.enabled
  }

  /** Both hooks keep `Consistent`. */
  lemma ApplyKeepsConsistent(s: State, fx: Effects, e: Event)
    requires Consistent(s)
    ensures Consistent(Apply(s, fx, e))
  {
  }

  /** Every run of hook calls keeps `Consistent`; in particular from boot. */
  lemma {:induction false} RunKeepsConsistent(s: State, fx: Effects, es: seq<Event>)
    requires Consistent(s)
    ensures Consistent(Run(s, fx, es))
    decreases |es|
  {
    if es != [] {
      ApplyKeepsConsistent(s, fx, es[0]);
      RunKeepsConsistent(Apply(s, fx, es[0]), fx, es[1..]);
    }
  }

  /** A run that never presses the override key. */
  predicate NoOverridePress(es: seq<Event>) {
    forall i :: 0 <= i < |es| ==> !(es[i].Key? && es[i].keycode == CST_RGBOVRRD && es[i].record.pressed && es[i].common)
  }

  /**
   * With the override off and nothing forced on, no run that leaves the
   * override key alone makes the hooks switch RGB on or off.
   */
  lemma {:induction false} OverrideOffNeverForces(s: State, fx: Effects, es: seq<Event>)
    requires !OverrideOn(s.userConfig) && !s.wasDisabled
    requires NoOverridePress(es)
    ensures var t := Run(s, fx, es);
      t.rgb.enabled == s.rgb.enabled && !t.wasDisabled && t.userConfig == s.userConfig
    decreases |es|
  {
    if es != [] {
      var s' := Apply(s, fx, es[0]);
      assert !(es[0].Key? && es[0].keycode == CST_RGBOVRRD && es[0].record.pressed && es[0].common);
      assert s'.rgb.enabled == s.rgb.enabled && !s'.wasDisabled && s'.userConfig == s.userConfig;
      assert NoOverridePress(es[1..]) by {
        forall i | 0 <= i < |es[1..]|
          ensures !(es[1..][i].Key? && es[1..][i].keycode == CST_RGBOVRRD && es[1..][i].record.pressed && es[1..][i].common)
        {
          assert es[1..][i] == es[i + 1];
        }
      }
      OverrideOffNeverForces(s', fx, es[1..]);
    }
  }
}
