/**
 * Layer selection for the lighting override: the layer enum, the sparse
 * `layer_rgb_map` table and `get_rgb_layer`, which picks the layer to light
 * from the highest active layer of a layer-state bitmask.
 */
module Layers {
  import opened Qmk

  /** `layer_state_t`: bit `l` is set when layer `l` is active. */
  type LayerState = uint32

  // `enum layers`.
  const MAC_BASE: nat := 0
  const MAC_FN: nat := 1
  const WIN_BASE: nat := 2
  const WIN_FN: nat := 3
  const WIN_NUMPAD: nat := 4
  const WIN_RGB1: nat := 5
  const WIN_RGB2: nat := 6
  const WIN_RGB3: nat := 7
  const WIN_RGB4: nat := 8

  /** Bit `l` of `state`. */
  predicate LayerOn(state: nat, l: nat)
    decreases l
  {
    if l == 0 then state % 2 == 1 else LayerOn(state / 2, l - 1)
  }

  /** 2 to the power `k`. */
  function Pow2(k: nat): (p: nat)
    ensures p >= 1
  {
    if k == 0 then 1 else 2 * Pow2(k - 1)
  }

  /**
   * The host's `get_highest_layer`: the index of the highest set bit, or 0
   * when no bit is set.
   */
  function HighestLayer(state: nat): nat {
    if state < 2 then 0 else 1 + HighestLayer(state / 2)
  }

  /** The highest layer is active, and no layer above it is. */
  lemma {:induction false} HighestLayerIsHighest(state: nat)
    requires state > 0
    ensures LayerOn(state, HighestLayer(state))
    ensures forall l :: l > HighestLayer(state) ==> !LayerOn(state, l)
  {
    if state >= 2 {
      HighestLayerIsHighest(state / 2);
      forall l | l > HighestLayer(state)
        ensures !LayerOn(state, l)
      {
        assert l - 1 > HighestLayer(state / 2);
      }
    } else {
      forall l | l > 0
        ensures !LayerOn(state, l)
      {
        NoLayerOn(l - 1);
      }
    }
  }

  /** With no bit set, no layer is active and the highest layer reads 0. */
  lemma {:induction false} NoLayerOn(l: nat)
    ensures !LayerOn(0, l) && HighestLayer(0) == 0
  {
    if l > 0 {
      NoLayerOn(l - 1);
    }
  }

  /** A state below 2^k has its highest layer below k. */
  lemma {:induction false} HighestLayerBound(state: nat, k: nat)
    requires 1 <= k && state < Pow2(k)
    ensures HighestLayer(state) < k
  {
    if state >= 2 {
      HighestLayerBound(state / 2, k - 1);
    }
  }

  /** 2^(a+b) == 2^a * 2^b */
  lemma {:induction false} Pow2Add(a: nat, b: nat)
    ensures Pow2(a + b) == Pow2(a) * Pow2(b)
  {
    if a > 0 {
      Pow2Add(a - 1, b);
    }
  }

  /** The highest layer of a 32-bit layer state is below 32, so it fits the `uint8_t layer`. */
  lemma HighestLayerFits(state: LayerState)
    ensures HighestLayer(state) < 32
  {
    assert Pow2(8) == 0x100;
    Pow2Add(8, 8);
    Pow2Add(16, 16);
    HighestLayerBound(state, 32);
  }

  /** Number of slots of `layer_rgb_map`: one past its largest designated index. */
  const LayerRgbMapSize: nat := WIN_NUMPAD + 1

  /** `layer_rgb_map`: yellow for WIN_FN, blue for WIN_NUMPAD, the rest zero. */
  function LayerRgbEntry(l: nat): Rgb
    requires l < LayerRgbMapSize
  {
    if l == WIN_FN then RGB_YELLOW
    else if l == WIN_NUMPAD then RGB_BLUE
    else Black
  }

  /** The table's bounds check and "not black" test together. */
  predicate HasLayerColor(l: nat) {
    l < LayerRgbMapSize && NonBlack(LayerRgbEntry(l))
  }

  /**
   * `get_rgb_layer`: the highest active layer when it is above 0 and has a
   * non-black `layer_rgb_map` entry, otherwise 0.
   */
  function GetRgbLayer(state: LayerState): (r: nat)
    ensures r == 0 || r == HighestLayer(state)
    ensures r != 0 <==> HighestLayer(state) == WIN_FN || HighestLayer(state) == WIN_NUMPAD
    ensures r < LayerRgbMapSize
    ensures r != 0 ==> NonBlack(LayerRgbEntry(r))
  {
    var layer := HighestLayer(state);
    if layer > 0 && HasLayerColor(layer) then layer else 0
  }

  /** A nonzero RGB layer is an active layer, and no higher layer is active. */
  lemma RgbLayerIsActiveTop(state: LayerState)
    requires GetRgbLayer(state) != 0
    ensures LayerOn(state, GetRgbLayer(state))
    ensures forall l :: l > GetRgbLayer(state) ==> !LayerOn(state, l)
  {
    HighestLayerIsHighest(state);
  }

  /**
   * With the keymap's table only WIN_FN and WIN_NUMPAD are lit layers, and
   * only when nothing above them is active.
   */
  lemma LitLayersOfTheTable()
    ensures GetRgbLayer(0x08) == WIN_FN       // WIN_FN alone
    ensures GetRgbLayer(0x10) == WIN_NUMPAD   // WIN_NUMPAD alone
    ensures GetRgbLayer(0x18) == WIN_NUMPAD   // both: the higher one wins
    ensures GetRgbLayer(0x0C) == WIN_FN       // WIN_BASE below WIN_FN
    ensures GetRgbLayer(0x04) == 0            // WIN_BASE
    ensures GetRgbLayer(0x02) == 0            // MAC_FN
    ensures GetRgbLayer(0x28) == 0            // WIN_RGB1 above WIN_FN
  {
  }
}
