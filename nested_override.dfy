/**
 * A further layer change onto a lit layer, while the override already holds
 * the lighting (hold Tab for WIN_NUMPAD, then also hold Fn), runs the saving
 * branch of `layer_state_set_user` again: the live mode is NONE by then, so
 * NONE overwrites the saved mode and leaving the layers does not restore the
 * effect the user had. When the lighting was off to begin with, the first
 * lit change forces it on and the second one finds it on, saves the effect
 * and sets NONE. The change to an unlit layer then takes the tracker branch:
 * it switches RGB off but does not install the saved effect, so the live
 * mode stays NONE. A third lit change (letting go of one of two held keys)
 * also writes NONE over the saved effect; after exactly two, the next unlit
 * change installs the effect again.
 *
 * `LayerChange` models the hook as written. `LayerChangeSaveOnce` is the
 * evidently intended hook: it saves the live mode once per override, and
 * not at all while it only forced the lighting on.
 */
module NestedOverride {
  import opened Qmk
  import opened Layers
  import opened RgbDriver
  import opened RgbOverride

  /** Every one of `ls` brings up a lit layer. */
  predicate AllLit(ls: seq<LayerState>) {
    forall i :: 0 <= i < |ls| ==> GetRgbLayer(ls[i]) > 0
  }

  /** The tail of a run of lit changes is one too. */
  lemma AllLitTail(ls: seq<LayerState>)
    requires |ls| > 0 && AllLit(ls)
    ensures GetRgbLayer(ls[0]) > 0 && AllLit(ls[1..])
  {
    assert GetRgbLayer(ls[0]) > 0;
    forall i | 0 <= i < |ls[1..]|
      ensures GetRgbLayer(ls[1..][i]) > 0
    {
      assert ls[1..][i] == ls[i + 1];
    }
  }

  /**
   * As written: once the live mode is NONE with RGB on, every further lit
   * change saves NONE, so after at least one of them both the live and the
   * saved mode are NONE.
   */
  lemma {:induction false} LitChangesSaveNone(s: State, ls: seq<LayerState>)
    requires OverrideOn(s.userConfig) && s.rgb.enabled && s.rgb.mode == RGB_MATRIX_NONE
    requires |ls| > 0 && AllLit(ls)
    ensures var t := RunLayers(s, ls);
      t.rgb == RgbState(true, RGB_MATRIX_NONE) && t.previousMode == RGB_MATRIX_NONE &&
      t.wasDisabled == s.wasDisabled && t.userConfig == s.userConfig
    decreases |ls|
  {
    AllLitTail(ls);
    var s' := LayerChange(s, ls[0]);
    if |ls| > 1 {
      LitChangesSaveNone(s', ls[1..]);
    }
  }

  /**
   * As written, RGB on: two or more lit-layer changes and then a change to
   * an unlit layer leave the mode at NONE.
   */
  lemma NestedEnterLosesMode(s: State, ls: seq<LayerState>, leave: LayerState)
    requires OverrideOn(s.userConfig) && s.rgb.enabled && !s.wasDisabled
    requires |ls| >= 2 && AllLit(ls) && GetRgbLayer(leave) == 0
    ensures LayerChange(RunLayers(s, ls), leave).rgb == RgbState(true, RGB_MATRIX_NONE)
  {
    AllLitTail(ls);
    LitChangesSaveNone(LayerChange(s, ls[0]), ls[1..]);
  }

  /**
   * As written, RGB off: two or more lit-layer changes and then a change to
   * an unlit layer switch RGB off again with the mode left at NONE.
   */
  lemma NestedEnterFromOffLosesMode(s: State, ls: seq<LayerState>, leave: LayerState)
    requires OverrideOn(s.userConfig) && !s.rgb.enabled && !s.wasDisabled
    requires |ls| >= 2 && AllLit(ls) && GetRgbLayer(leave) == 0
    ensures LayerChange(RunLayers(s, ls), leave).rgb == RgbState(false, RGB_MATRIX_NONE)
  {
    AllLitTail(ls);
    AllLitTail(ls[1..]);
    assert ls[1..][1..] == ls[2..];
    var s1 := LayerChange(s, ls[0]);
    var s2 := LayerChange(s1, ls[1]);
    assert RunLayers(s, ls) == RunLayers(s1, ls[1..]) == RunLayers(s2, ls[2..]);
    if |ls| > 2 {
      LitChangesSaveNone(s2, ls[2..]);
    }
  }

  /**
   * As written, RGB off, exactly two lit-layer changes: the second one saves
   * the effect, the leave switches RGB off with the live mode NONE, and the
   * next unlit change installs the saved effect again.
   */
  lemma FromOffTwoLitChanges(s: State, first: LayerState, second: LayerState, leave: LayerState, next: LayerState)
    requires OverrideOn(s.userConfig) && !s.rgb.enabled && !s.wasDisabled
    requires GetRgbLayer(first) > 0 && GetRgbLayer(second) > 0
    requires GetRgbLayer(leave) == 0 && GetRgbLayer(next) == 0
    ensures var t := LayerChange(LayerChange(s, first), second);
      t.previousMode == s.rgb.mode && t.rgb == RgbState(true, RGB_MATRIX_NONE)
    ensures var t := LayerChange(LayerChange(LayerChange(s, first), second), leave);
      t.rgb == RgbState(false, RGB_MATRIX_NONE) && t.previousMode == s.rgb.mode && !t.wasDisabled
    ensures LayerChange(LayerChange(LayerChange(LayerChange(s, first), second), leave), next).rgb == s.rgb
  {
  }

  /** Holding Tab (WIN_NUMPAD, 0x10), then Fn (0x18), releasing Fn (0x10), releasing Tab (0x00). */
  const TabFnKeys: seq<LayerState> := [0x10, 0x18, 0x10]

  /** The concrete input, from effect 7 running and from the lighting off. */
  lemma NestedEnterExample()
    ensures var s := State(1, [], false, RGB_MATRIX_NONE, RgbState(true, 7));
      LayerChange(RunLayers(s, TabFnKeys), 0x00).rgb.mode == RGB_MATRIX_NONE != s.rgb.mode
    ensures var s := State(1, [], false, RGB_MATRIX_NONE, RgbState(false, 7));
      LayerChange(RunLayers(s, TabFnKeys), 0x00).rgb.mode == RGB_MATRIX_NONE != s.rgb.mode
  {
    LitLayersOfTheTable();
    assert AllLit(TabFnKeys);
    NestedEnterLosesMode(State(1, [], false, RGB_MATRIX_NONE, RgbState(true, 7)), TabFnKeys, 0x00);
    NestedEnterFromOffLosesMode(State(1, [], false, RGB_MATRIX_NONE, RgbState(false, 7)), TabFnKeys, 0x00);
  }

  /**
   * The hook's state with one more static: a mode is saved in `previousMode`
   * and not yet restored.
   */
  datatype Saving = Saving(s: State, saved: bool)

  /**
   * The corrected hook: save the live mode once per override, never while
   * the lighting is only forced on, and restore it on leaving.
   */
  function LayerChangeSaveOnce(g: Saving, layers: LayerState): (r: Saving)
    ensures r.s.userConfig == g.s.userConfig && r.s.eepromWrites == g.s.eepromWrites
    ensures !Forcing(g.s, layers) ==> !r.saved && !r.s.wasDisabled
    ensures Forcing(g.s, layers) ==> r.s.rgb.enabled && r.s.rgb.mode in {g.s.rgb.mode, RGB_MATRIX_NONE}
  {
    var s := g.s;
    if Forcing(s, layers) then
      if !s.rgb.enabled then
        Saving(s.(wasDisabled := true, rgb := s.rgb.(enabled := true)), g.saved)
      else if s.wasDisabled then
        g
      else if g.saved then
        Saving(s.(rgb := s.rgb.(mode := RGB_MATRIX_NONE)), true)
      else
        Saving(s.(previousMode := s.rgb.mode, rgb := s.rgb.(mode := RGB_MATRIX_NONE)), true)
    else
      if s.wasDisabled then
        Saving(s.(rgb := s.rgb.(enabled := false), wasDisabled := false), false)
      else
        Saving(s.(rgb := s.rgb.(mode := s.previousMode)), false)
  }

  /**
   * Where they agree: for a single layer change from a state in which
   * nothing is saved or forced on, the corrected hook is the hook as written.
   */
  lemma SaveOnceAgreesOnFirstEnter(s: State, layers: LayerState)
    requires !s.wasDisabled
    ensures LayerChangeSaveOnce(Saving(s, false), layers).s == LayerChange(s, layers)
  {
  }

  /** The corrected hook over several layer changes. */
  function RunSaveOnce(g: Saving, ls: seq<LayerState>): Saving
    decreases |ls|
  {
    if ls == [] then g else RunSaveOnce(LayerChangeSaveOnce(g, ls[0]), ls[1..])
  }

  /** Once a mode is saved, further lit-layer changes keep it saved and RGB on. */
  lemma {:induction false} SavedSurvivesLitChanges(g: Saving, ls: seq<LayerState>)
    requires OverrideOn(g.s.userConfig) && g.s.rgb.enabled && !g.s.wasDisabled && g.saved
    requires AllLit(ls)
    ensures var t := RunSaveOnce(g, ls);
      t.saved && t.s.rgb.enabled && !t.s.wasDisabled &&
      t.s.previousMode == g.s.previousMode && t.s.userConfig == g.s.userConfig
    decreases |ls|
  {
    if ls != [] {
      AllLitTail(ls);
      SavedSurvivesLitChanges(LayerChangeSaveOnce(g, ls[0]), ls[1..]);
    }
  }

  /** While the lighting is only forced on, lit-layer changes leave the state alone. */
  lemma {:induction false} ForcedSurvivesLitChanges(g: Saving, ls: seq<LayerState>)
    requires OverrideOn(g.s.userConfig) && g.s.rgb.enabled && g.s.wasDisabled
    requires AllLit(ls)
    ensures RunSaveOnce(g, ls) == g
    decreases |ls|
  {
    if ls != [] {
      AllLitTail(ls);
      ForcedSurvivesLitChanges(LayerChangeSaveOnce(g, ls[0]), ls[1..]);
    }
  }

  /**
   * Corrected: with RGB on and the override on, any number of lit-layer
   * changes followed by one change to an unlit layer restores the effect
   * that was live before the first of them.
   */
  lemma SaveOnceRestoresMode(s: State, ls: seq<LayerState>, leave: LayerState)
    requires OverrideOn(s.userConfig) && s.rgb.enabled && !s.wasDisabled
    requires |ls| > 0 && AllLit(ls) && GetRgbLayer(leave) == 0
    ensures LayerChangeSaveOnce(RunSaveOnce(Saving(s, false), ls), leave).s.rgb == s.rgb
  {
    AllLitTail(ls);
    SavedSurvivesLitChanges(LayerChangeSaveOnce(Saving(s, false), ls[0]), ls[1..]);
  }

  /**
   * Corrected, RGB off: any number of lit-layer changes followed by one
   * change to an unlit layer switch the lighting off again with the same
   * effect and nothing left forced on.
   */
  lemma SaveOnceRestoresFromOff(s: State, ls: seq<LayerState>, leave: LayerState)
    requires OverrideOn(s.userConfig) && !s.rgb.enabled && !s.wasDisabled
    requires |ls| > 0 && AllLit(ls) && GetRgbLayer(leave) == 0
    ensures var t := LayerChangeSaveOnce(RunSaveOnce(Saving(s, false), ls), leave).s;
      t.rgb == s.rgb && !t.wasDisabled
  {
    AllLitTail(ls);
    ForcedSurvivesLitChanges(LayerChangeSaveOnce(Saving(s, false), ls[0]), ls[1..]);
  }

  /** The corrected hook on the concrete input restores both starting states. */
  lemma SaveOnceExample()
    ensures var s := State(1, [], false, RGB_MATRIX_NONE, RgbState(true, 7));
      LayerChangeSaveOnce(RunSaveOnce(Saving(s, false), TabFnKeys), 0x00).s.rgb == s.rgb
    ensures var s := State(1, [], false, RGB_MATRIX_NONE, RgbState(false, 7));
      LayerChangeSaveOnce(RunSaveOnce(Saving(s, false), TabFnKeys), 0x00).s.rgb == s.rgb
  {
    LitLayersOfTheTable();
    assert AllLit(TabFnKeys);
    SaveOnceRestoresMode(State(1, [], false, RGB_MATRIX_NONE, RgbState(true, 7)), TabFnKeys, 0x00);
    SaveOnceRestoresFromOff(State(1, [], false, RGB_MATRIX_NONE, RgbState(false, 7)), TabFnKeys, 0x00);
  }
}
