# Keychron Q3 Max keymap: the RGB-on-layer override, in Dafny

This project models the logic in `keymap.c`, the personal QMK keymap of a Keychron Q3 Max. The rest of that file is layout data. The modelled logic is a small lighting state machine:

- **Layer selection** (`get_rgb_layer`). The host reports the highest active layer. That layer is "lit" when it is above 0 and has a non-black entry in the sparse `layer_rgb_map` table. With this table, only WIN_FN (yellow) and WIN_NUMPAD (blue) can be lit.
- **Layer-change hook** (`layer_state_set_user`). The override flag is the persisted `layer_rgb_override` bit of `user_config`. When it is set and a lit layer comes up, the hook forces the lighting on. If RGB was off, the hook switches it on and remembers this in `rgb_matrix_was_disabled`. If RGB was on, the hook saves the live effect in `previous_rgb_mode` and sets the live effect to NONE. On any other layer change it undoes this: it switches RGB off again, or installs `previous_rgb_mode`.
- **Key-event hook** (`process_record_user`):
  - CST_RGBOVRRD flips the override bit and writes the word to EEPROM.
  - RGB_MOD and RGB_RMOD step the effect and record it as the mode to restore.
  - CST_RGB_M1 and CST_RGB_M2 choose the mode to restore.
  - RGB_TOG clears the forced-on state.
  - The Caps Lock mod-tap sends GUI+Space on a tap.
- **Indicator painting** (`rgb_matrix_indicators_advanced_user`). On a lit layer, every LED of the current batch that sits under a key gets a colour from that key; the other LEDs keep theirs. An empty or transparent key is off. A key with a colour of its own in `key_rgb_map` gets that colour. Every other key gets the layer colour.

Modules:

- `Qmk` (qmk.dfy): fixed-width integers, the colour record, colour values and keycode numbers.
- `Layers` (layers.dfy): layer bitmasks, the host's highest-layer function, `layer_rgb_map` and `GetRgbLayer`.
- `KeyColors` (key_colors.dfy): `key_rgb_map` and the per-key colour rule.
- `RgbDriver` (rgb_driver.dfy): the host RGB driver as a small class. Its effect stepping and effect numbers are inputs, given as the `Effects` record.
- `RgbOverride` (rgb_override.dfy): the file's state as a value (`State`). It holds the two hooks as functions (`LayerChange`, `KeyEvent`), their properties, and runs of hook calls with an invariant.
- `Keymap` (keymap.dfy): the class that holds the file's statics. Its two hook methods update the state in place. Each is proved to land exactly where `LayerChange` / `KeyEvent` say.
- `Indicators` (indicators.dfy): the paint loop over an LED colour array, proved against a recursive paint function. Lemmas state which LEDs keep their colour and which colour the others get.
- `NestedOverride` (nested_override.dfy): the first finding below.
- `BootMode` (boot_mode.dfy): the second finding below.
- `ModeStep` (mode_step.dfy): the third finding below.

Some host facts are not in `keymap.c`: the colour values of the `RGB_*` macros, the keycode numbers (RGB_TOG = 0x7820, SAFE_RANGE = 0x7E40, C(G(KC_LEFT)) = 0x0950, and so on) and the 6×17 matrix. Their values are those of QMK's headers and this board's configuration. The proofs rely only on these facts:

- the keycodes are distinct;
- the keycodes are above KC_TRNS;
- the table colours are not black;
- the table sizes are one past their largest designated index.

## Model

| member | source | states |
|---|---|---|
| `Layers.HighestLayerIsHighest` | keymap.c:225-226 | For a nonzero layer state, the layer that `get_highest_layer` reports is active, and no layer above it is active. |
| `Layers.NoLayerOn` | keymap.c:225 | An empty layer state has no active layer, and its highest layer reads 0. So `get_rgb_layer` returns 0 for it. |
| `Layers.HighestLayerBound` | keymap.c:226 | A state below 2^k has its highest layer below k. |
| `Layers.HighestLayerFits` | keymap.c:226 | The highest layer of any 32-bit layer state is below 32, so it fits the `uint8_t layer`. |
| `Layers.GetRgbLayer` | keymap.c:224-234 | The result is 0 or the highest layer. It is nonzero exactly when the highest layer is WIN_FN or WIN_NUMPAD. It is always a valid `layer_rgb_map` index, and a nonzero result has a non-black colour. |
| `Layers.RgbLayerIsActiveTop` | keymap.c:224-234 | A nonzero RGB layer is an active layer, and no higher layer is active. |
| `Layers.LitLayersOfTheTable` | keymap.c:61-64 | With this table: WIN_FN or WIN_NUMPAD on top is lit, and the higher of the two wins. WIN_BASE, MAC_FN, and WIN_RGB1 above WIN_FN are not lit. |
| `KeyColors.KeyColor` | keymap.c:271-281 | KC_NO and KC_TRNS are off. A keycode with a non-black in-range `key_rgb_map` entry gets that entry. Any other keycode gets the layer colour. |
| `KeyColors.KeyIsDarkIffEmpty` | keymap.c:271-281 | On a lit layer, a key is painted black exactly when its keycode is at most KC_TRNS. |
| `KeyColors.KeyColorsOfTheTable` | keymap.c:67-76 | The eight table keys get red, blue, azure or purple. Keycodes outside the table, such as RGB_MOD and CST_RGB_M1, fall back to the layer colour. |
| `RgbOverride.ToggleOverride` | keymap.c:205 | `layer_rgb_override ^= 1`: the override bit flips and every other bit of the raw word is kept. |
| `RgbOverride.Boot` | keymap.c:168-171 | After post-init, the config word is the EEPROM value, nothing has been written, the tracker is false and the saved mode is NONE (the zeroed static). |
| `RgbOverride.LayerChange` | keymap.c:236-256 | The configuration and the EEPROM writes are untouched. Outside the forcing branch the tracker ends false. In the forcing branch RGB ends on. |
| `RgbOverride.ForcedOnWhenOff` | keymap.c:237-240 | Override on, a lit layer, RGB off: RGB is enabled and the tracker is set. The live mode and `previous_rgb_mode` are untouched. |
| `RgbOverride.ForcedOnThenLeave` | keymap.c:237-249 | After that, a change to an unlit layer disables RGB again and clears the tracker. The mode and the saved mode are as before. |
| `RgbOverride.ModeSavedWhenOn` | keymap.c:241-243 | Override on, a lit layer, RGB on: the live mode is saved into `previous_rgb_mode` and the live mode becomes NONE. |
| `RgbOverride.EnterLeaveRestoresMode` | keymap.c:241-251 | Start with RGB on and the tracker false. One lit-layer change then one unlit-layer change give back the same driver state: enabled, with the original mode. |
| `RgbOverride.FnFlashFromDark` | keymap.c:236-256 | From boot with the override on and RGB off (effect 5): Fn (0x08) forces RGB on with effect 5 and sets the tracker; releasing it (0x00) gives exactly the boot state again. |
| `RgbOverride.NotForcingRestoresOrDisables` | keymap.c:245-253 | Outside the forcing branch the tracker ends false. RGB is disabled (mode kept) if the tracker was set. Otherwise the live mode becomes `previous_rgb_mode`. |
| `RgbOverride.KeyEvent` | keymap.c:173-221 | Only a press of CST_RGBOVRRD changes the configuration word. A keycode is sent only for a tapped press of the Caps Lock mod-tap with the common hook passing the event on: it is GUI+Space, and the event is consumed. |
| `RgbOverride.CommonHookConsumes` | keymap.c:174-176 | If the common hook returns false, the hook returns false and nothing changes. |
| `RgbOverride.UnhandledPassesThrough` | keymap.c:218-220 | A keycode the switch does not handle returns true, with no state change and nothing sent. |
| `RgbOverride.OverrideKeyPress` | keymap.c:203-209 | A CST_RGBOVRRD press flips the override, keeps the other bits and appends the new word to the EEPROM writes. Nothing else changes, and it returns false. |
| `RgbOverride.OverrideKeyRelease` | keymap.c:203-209 | A CST_RGBOVRRD release changes nothing and returns false. |
| `RgbOverride.OverrideKeyTwice` | keymap.c:203-209 | Two presses restore the original word. Both words were written, in order, and nothing else changed. |
| `RgbOverride.ModeStepKeys` | keymap.c:193-202 | RGB_MOD / RGB_RMOD, pressed or released, step the live mode forward / backward. They set `previous_rgb_mode` to the new live mode, send nothing and return false. |
| `RgbOverride.PresetModeKeys` | keymap.c:210-217 | CST_RGB_M1 / CST_RGB_M2, pressed or released, set `previous_rgb_mode` to TYPING_HEATMAP / SPLASH and return false. The live mode is untouched. |
| `RgbOverride.ToggleKey` | keymap.c:185-192 | RGB_TOG always returns true. On a press with the tracker set, it clears the tracker and disables RGB. Otherwise nothing changes. |
| `RgbOverride.CapsModTap` | keymap.c:179-184 | The Caps Lock mod-tap sends GUI+Space and returns false exactly on a tapped press. Otherwise it returns true. The state never changes. |
| `RgbOverride.ApplyKeepsConsistent` | keymap.c:173-256 | Each hook keeps this invariant: the tracker is set only while RGB is on. |
| `RgbOverride.RunKeepsConsistent` | keymap.c:173-256 | Every sequence of hook calls keeps this invariant, from boot onward. |
| `RgbOverride.OverrideOffNeverForces` | keymap.c:236-256 | Start with the override off and nothing forced on. No sequence of hook calls that leaves the override key alone switches RGB on or off or sets the tracker. |
| `Keymap.Keymap.constructor` | keymap.c:168-171 | The statics start zeroed and `user_config` holds the EEPROM word (`Boot`). |
| `Keymap.Keymap.LayerStateSetUser` | keymap.c:236-256 | Returns its argument. The new file and driver state is `LayerChange` of the old one. |
| `Keymap.Keymap.ProcessRecordUser` | keymap.c:173-221 | The new state, the return value and the sent keycode are those of `KeyEvent`. |
| `Indicators.Indicate` | keymap.c:258-262 | Painting keeps the buffer length. When the RGB layer is 0, nothing is painted. |
| `Indicators.IndicatorsAdvancedUser` | keymap.c:258-288 | Returns false. The nested row/column loop leaves the LED buffer equal to `Indicate` of the old buffer. |
| `Indicators.PaintKeyFrame` | keymap.c:266-268 | One position writes at most the LED under it, and only when that LED is in the batch and is not NO_LED. |
| `Indicators.PaintColsFrame` | keymap.c:265-283 | Over the columns of a row, an LED outside the batch, or under none of them, keeps its colour. |
| `Indicators.PaintRowsFrame` | keymap.c:264-284 | Over the rows, an LED outside the batch, or under no visited position, keeps its colour. |
| `Indicators.IndicateOnlyInBatch` | keymap.c:268 | The hook changes no LED outside `[led_min, led_max)`, and never NO_LED. |
| `Indicators.PaintColsSets` | keymap.c:265-281 | Within a row, the LED under one position ends with that key's colour. |
| `Indicators.PaintRowsSets` | keymap.c:264-281 | Across rows, the LED under one position ends with that key's colour. |
| `Indicators.IndicateColorsKey` | keymap.c:269-281 | On a lit layer, an LED of the batch under one key ends as follows. It is off for a keycode ≤ KC_TRNS. It gets the key's own colour when it has a non-black in-range `key_rgb_map` entry, and the layer colour otherwise. It is lit exactly when the keycode is above KC_TRNS. |
| `NestedOverride.AllLitTail` | keymap.c:237 | A run of lit-layer changes starts with a lit change and its tail is again a run of lit changes. |
| `NestedOverride.LitChangesSaveNone` | keymap.c:241-243 | As written: with the override on, RGB on and the live mode NONE, one or more lit-layer changes leave both the live and the saved mode at NONE, RGB on and the tracker as it was. |
| `NestedOverride.NestedEnterLosesMode` | keymap.c:241-251 | As written: with RGB on and the override on, do two or more lit-layer changes, then an unlit-layer change. RGB ends on with the mode NONE. |
| `NestedOverride.NestedEnterFromOffLosesMode` | keymap.c:237-251 | As written: with RGB off and the override on, do two or more lit-layer changes, then an unlit-layer change. RGB ends off with the mode NONE. |
| `NestedOverride.FromOffTwoLitChanges` | keymap.c:237-251 | As written, RGB off, exactly two lit changes: the second saves the effect and sets NONE; the unlit change switches RGB off with the live mode NONE and the effect still saved; the next unlit change gives back the starting driver state. |
| `NestedOverride.NestedEnterExample` | keymap.c:237-251 | The concrete case: effect 7, layer states 0x10, 0x18, 0x10, 0x00 (hold Tab, hold Fn, release Fn, release Tab). The mode ends at NONE instead of 7, both when RGB starts on and when it starts off. |
| `NestedOverride.LayerChangeSaveOnce` | keymap.c:236-256 | The corrected hook keeps the configuration and the EEPROM writes. Outside the forcing branch, both its "saved" flag and the tracker end false. In the forcing branch RGB ends on, with the mode unchanged or NONE. |
| `NestedOverride.SaveOnceAgreesOnFirstEnter` | keymap.c:236-256 | From a state with nothing saved and nothing forced on, one change of the corrected hook equals the hook as written. |
| `NestedOverride.SavedSurvivesLitChanges` | keymap.c:241-243 | Under the corrected hook, once a mode is saved, further lit-layer changes keep it saved, keep RGB on and keep the saved mode. |
| `NestedOverride.ForcedSurvivesLitChanges` | keymap.c:237-240 | Under the corrected hook, while RGB is only forced on, further lit-layer changes change nothing. |
| `NestedOverride.SaveOnceRestoresMode` | keymap.c:241-251 | Corrected, RGB on: any number (≥ 1) of lit-layer changes followed by one unlit-layer change restore the driver state that was live before. |
| `NestedOverride.SaveOnceRestoresFromOff` | keymap.c:237-249 | Corrected, RGB off: any number (≥ 1) of lit-layer changes followed by one unlit-layer change restore the driver state (off, same effect) and clear the tracker. |
| `NestedOverride.SaveOnceExample` | keymap.c:237-251 | The corrected hook on the concrete case restores effect 7, from RGB on and from RGB off. |
| `BootMode.BootLayerChangeResetsMode` | keymap.c:34 | As written: right after boot, a layer change outside the forcing branch installs the zeroed `previous_rgb_mode`, so the live mode becomes NONE. |
| `BootMode.BootFnExample` | keymap.c:34 | The concrete case: override off, effect 7 running, Fn pressed (0x08). The mode becomes NONE instead of staying 7. |
| `BootMode.BootKeepingMode` | keymap.c:168-171 | The corrected post-init: the configuration is the EEPROM word, nothing is written or forced on, and the saved mode is the live mode. |
| `BootMode.SavedModeSurvivesLayerChanges` | keymap.c:245-251 | With the override off, nothing forced on and the saved mode equal to the live one, any sequence of layer changes leaves the state as it was. |
| `BootMode.BootKeepingModeKeepsEffect` | keymap.c:245-251 | Corrected: with the override off, no sequence of layer changes after boot changes the lighting. |
| `BootMode.BootKeepingModeExample` | keymap.c:245-251 | The corrected post-init on the concrete case keeps effect 7. |
| `ModeStep.StrokeStepsTwice` | keymap.c:193-202 | As written: pressing and releasing RGB_MOD (RGB_RMOD) steps the effect forward (backward) twice, and that is the mode to restore. |
| `ModeStep.StrokeStepsTwiceExample` | keymap.c:198-202 | The concrete case: effects numbered in order, effect 3 running, one RGB_MOD keystroke lands on effect 5. |
| `ModeStep.KeyEventStepOnPress` | keymap.c:193-202 | The corrected key hook: RGB_MOD and RGB_RMOD return false and send nothing, and their release leaves the state alone. |
| `ModeStep.StrokeStepsOnce` | keymap.c:193-202 | Corrected: one keystroke of RGB_MOD (RGB_RMOD) steps the effect once, records it as the mode to restore, sends nothing and returns false. |
| `ModeStep.StepOnPressAgreesElsewhere` | keymap.c:173-221 | The corrected key hook equals the hook as written on every event except the release of RGB_MOD or RGB_RMOD. |

## Findings

| source | as written | input that shows it | evidently intended | confidence | as-written member | corrected member |
|---|---|---|---|---|---|---|
| keymap.c:241-243 | Each lit-layer change with RGB on saves the live mode into `previous_rgb_mode`. On a second such change the live mode is already NONE, so NONE overwrites the saved effect. When RGB started off, the first lit change forces it on and the second one saves the effect and sets NONE. The unlit change then takes the tracker branch (keymap.c:247-249): it switches RGB off but does not install the saved effect, so the live mode stays NONE. A third lit change writes NONE over the saved effect too; after exactly two, the next unlit change would install it again. | Override on, effect 7. Hold Tab (layer state 0x10, WIN_NUMPAD), hold Fn (0x18), release Fn (0x10), release Tab (0x00). The mode ends at NONE, with RGB on if it started on and off if it started off. | Save the effect once per override and not while RGB is only forced on, and restore it when no lit layer remains. | medium, not executed | `NestedOverride.NestedEnterLosesMode`, `NestedOverride.NestedEnterFromOffLosesMode` | `NestedOverride.SaveOnceRestoresMode`, `NestedOverride.SaveOnceRestoresFromOff` |
| keymap.c:34 | `previous_rgb_mode` starts at 0 and `keyboard_post_init_user` (keymap.c:168-171) does not set it. Every layer change outside the forcing branch installs it (keymap.c:251). | Override off, effect 7 running after boot. Press Fn (layer state 0x08). The mode becomes NONE. | Save the live mode at post-init, so that with the override off layer changes leave the lighting alone. | medium, not executed | `BootMode.BootLayerChangeResetsMode` | `BootMode.BootKeepingModeKeepsEffect` |
| keymap.c:193-202 | RGB_RMOD and RGB_MOD step the effect and return false without testing `record->event.pressed`, so the press and the release of one key each step it. | Effect 3 running, effects numbered in order. Tap RGB_MOD once. The effect ends at 5. | Step once per keystroke, on the press. | medium, not executed | `ModeStep.StrokeStepsTwice` | `ModeStep.StrokeStepsOnce` |

The `Keymap` class models the hooks as written. `LayerChangeSaveOnce` is the corrected layer hook. It needs one static more than the source has: a "mode saved" flag. `BootKeepingMode` is the corrected post-init, and `KeyEventStepOnPress` the corrected handling of the step keys.

## Left out

- Layout data. The contents of `keymaps` and `encoder_map` (keymap.c:79-165) are fixed configuration. The key lookup and the matrix-to-LED table are the `Board` record's functions.
- `process_record_keychron_common`. Only its boolean result is modelled, as the `common` parameter. Its own effects are host code.
- `tap_code16` HID output. It is not sent anywhere; it is returned as the `tapped` keycode. Tap/hold detection is the `tapCount` field of the record.
- EEPROM mechanics. `eeconfig_read_user` is the constructor's argument. `eeconfig_update_user` appends to a log of written words.
- RGB driver internals. How `rgb_matrix_step` / `rgb_matrix_step_reverse` choose the next effect is not modelled; they are the `Effects` functions of the old mode. These host rules are left out:
  - the driver clamps mode 0 to 1;
  - the driver ignores mode changes while disabled;
  - RGB_MOD writes to EEPROM;
  - the host's own action for keys the hook passes on. One example: `rgb_matrix_toggle` runs after RGB_TOG returns true.
- The effect numbers of TYPING_HEATMAP and SPLASH depend on the host's effect list. They are fields of `Effects`.
- `user_config_t` layout. Its union and bit-field layout is taken as "override = bit 0 of the raw word".
- The host's `layer_state` global. It is a parameter of the indicator hook. The LED buffer is an array indexed by LED number. The requirement `ledMax <= leds.Length` stands for the host's promise that batches lie within the LED count.
- Physical colour rendering and concurrency. The host runs the hooks one at a time.
- `Indicators.IndicateColorsKey`: states the final colour only for an LED under exactly one matrix position. Where several positions share an LED, the last one visited wins; that case is covered only by `Indicate` itself.
