/**
 * `rgb_matrix_indicators_advanced_user`: on a lit layer, every LED of the
 * current batch `[ledMin, ledMax)` that sits under a key gets that key's
 * colour; the other LEDs keep theirs.
 * The LED colour buffer is an array indexed by LED number; the keymap lookup
 * and the matrix-to-LED table are the host's and enter as the `Board` record.
 */
module Indicators {
  import opened Qmk
  import opened Layers
  import opened KeyColors

  const MATRIX_ROWS: nat := 6
  const MATRIX_COLS: nat := 17
  /** `NO_LED`: a matrix position with no LED under it. */
  const NO_LED: uint8 := 255

  /** The host lookups the hook uses. */
  datatype Board = Board(
    keyAt: (nat, nat, nat) -> uint16,  // keymap_key_to_keycode(layer, {col, row})
    ledAt: (nat, nat) -> uint8)        // g_led_config.matrix_co[row][col]

  /** The hook's LED window test. */
  predicate InBatch(index: nat, ledMin: uint8, ledMax: uint8) {
    ledMin <= index < ledMax && index != NO_LED
  }

  /** The colour buffer after the hook visits matrix position (row, col). */
  function PaintKey(leds: seq<Rgb>, b: Board, layer: nat, ledMin: uint8, ledMax: uint8, row: nat, col: nat): (r: seq<Rgb>)
    requires ledMax <= |leds| && layer < LayerRgbMapSize
    ensures |r| == |leds|
  {
    var index := b.ledAt(row, col);
    if InBatch(index, ledMin, ledMax) then
      leds[index := KeyColor(LayerRgbEntry(layer), b.keyAt(layer, row, col))]
    else
      leds
  }

  /** The buffer after the first `n` columns of `row`. */
  function PaintCols(leds: seq<Rgb>, b: Board, layer: nat, ledMin: uint8, ledMax: uint8, row: nat, n: nat): (r: seq<Rgb>)
    requires ledMax <= |leds| && layer < LayerRgbMapSize
    ensures |r| == |leds|
  {
    if n == 0 then leds
    else PaintKey(PaintCols(leds, b, layer, ledMin, ledMax, row, n - 1), b, layer, ledMin, ledMax, row, n - 1)
  }

  /** The buffer after the first `m` rows. */
  function PaintRows(leds: seq<Rgb>, b: Board, layer: nat, ledMin: uint8, ledMax: uint8, m: nat): (r: seq<Rgb>)
    requires ledMax <= |leds| && layer < LayerRgbMapSize
    ensures |r| == |leds|
  {
    if m == 0 then leds
    else PaintCols(PaintRows(leds, b, layer, ledMin, ledMax, m - 1), b, layer, ledMin, ledMax, m - 1, MATRIX_COLS)
  }

  /** What the hook does to the buffer for layer state `layers`. */
  function Indicate(leds: seq<Rgb>, b: Board, layers: LayerState, ledMin: uint8, ledMax: uint8): (r: seq<Rgb>)
    requires ledMax <= |leds|
    ensures |r| == |leds|
    ensures GetRgbLayer(layers) == 0 ==> r == leds
  {
    var layer := GetRgbLayer(layers);
    if layer > 0 then PaintRows(leds, b, layer, ledMin, ledMax, MATRIX_ROWS) else leds
  }

  /**
   * `rgb_matrix_indicators_advanced_user(led_min, led_max)`; `layers` is the
   * host's `layer_state`, `leds` the driver's colour buffer.
   */
  method IndicatorsAdvancedUser(b: Board, layers: LayerState, ledMin: uint8, ledMax: uint8, leds: array<Rgb>)
    returns (r: bool)
    requires ledMax <= leds.Length
    modifies leds
    ensures !r
    ensures leds[..] == Indicate(old(leds[..]), b, layers, ledMin, ledMax)
  {
    var layer := GetRgbLayer(layers);
    if layer > 0 {
      var layerColor := LayerRgbEntry(layer);
      ghost var start := leds[..];
      for row := 0 to MATRIX_ROWS
        invariant leds[..] == PaintRows(start, b, layer, ledMin, ledMax, row)
      {
        ghost var rowStart := leds[..];
        for col := 0 to MATRIX_COLS
          invariant leds[..] == PaintCols(rowStart, b, layer, ledMin, ledMax, row, col)
        {
          var index := b.ledAt(row, col);
          if index >= ledMin && index < ledMax && index != NO_LED {
            var key := b.keyAt(layer, row, col);
            if key > KC_TRNS {
              var keyColor := layerColor;
              if key < KeyRgbMapSize && NonBlack(KeyRgbEntry(key)) {
                keyColor := KeyRgbEntry(key);
              }
              leds[index] := keyColor;
            } else {
              leds[index] := RGB_OFF;
            }
          }
        }
      }
    }
    r := false;
  }

  // ---------------------------------------------------------------------
  // What painting does to one LED

  /** Visiting a position touches at most the LED under it, and only inside the batch. */
  lemma PaintKeyFrame(leds: seq<Rgb>, b: Board, layer: nat, ledMin: uint8, ledMax: uint8, row: nat, col: nat, i: nat)
    requires ledMax <= |leds| && layer < LayerRgbMapSize && i < |leds|
    requires i != b.ledAt(row, col) || !InBatch(i, ledMin, ledMax)
    ensures PaintKey(leds, b, layer, ledMin, ledMax, row, col)[i] == leds[i]
  {
  }

  /** No LED outside the batch, and no LED with no key above it in the columns visited, changes within a row. */
  lemma {:induction false} PaintColsFrame(leds: seq<Rgb>, b: Board, layer: nat, ledMin: uint8, ledMax: uint8, row: nat, n: nat, i: nat)
    requires ledMax <= |leds| && layer < LayerRgbMapSize && i < |leds|
    requires !InBatch(i, ledMin, ledMax) || forall c :: 0 <= c < n ==> b.ledAt(row, c) != i
    ensures PaintCols(leds, b, layer, ledMin, ledMax, row, n)[i] == leds[i]
  {
    if n > 0 {
      PaintColsFrame(leds, b, layer, ledMin, ledMax, row, n - 1, i);
      PaintKeyFrame(PaintCols(leds, b, layer, ledMin, ledMax, row, n - 1), b, layer, ledMin, ledMax, row, n - 1, i);
    }
  }

  /** Several rows: an LED outside the batch, or under no visited position, is left as it was. */
  lemma {:induction false} PaintRowsFrame(leds: seq<Rgb>, b: Board, layer: nat, ledMin: uint8, ledMax: uint8, m: nat, i: nat)
    requires ledMax <= |leds| && layer < LayerRgbMapSize && i < |leds|
    requires !InBatch(i, ledMin, ledMax) || forall r, c :: 0 <= r < m && 0 <= c < MATRIX_COLS ==> b.ledAt(r, c) != i
    ensures PaintRows(leds, b, layer, ledMin, ledMax, m)[i] == leds[i]
  {
    if m > 0 {
      PaintRowsFrame(leds, b, layer, ledMin, ledMax, m - 1, i);
      PaintColsFrame(PaintRows(leds, b, layer, ledMin, ledMax, m - 1), b, layer, ledMin, ledMax, m - 1, MATRIX_COLS, i);
    }
  }

  /** The hook changes no LED outside `[ledMin, ledMax)`, nor NO_LED. */
  lemma IndicateOnlyInBatch(leds: seq<Rgb>, b: Board, layers: LayerState, ledMin: uint8, ledMax: uint8, i: nat)
    requires ledMax <= |leds| && i < |leds| && !InBatch(i, ledMin, ledMax)
    ensures Indicate(leds, b, layers, ledMin, ledMax)[i] == leds[i]
  {
    var layer := GetRgbLayer(layers);
    if layer > 0 {
      PaintRowsFrame(leds, b, layer, ledMin, ledMax, MATRIX_ROWS, i);
    }
  }

  /** The single matrix position (row, col) has LED `i` under it. */
  predicate OnlyPositionOf(b: Board, row: nat, col: nat, i: nat) {
    row < MATRIX_ROWS && col < MATRIX_COLS && b.ledAt(row, col) == i &&
    forall r, c :: 0 <= r < MATRIX_ROWS && 0 <= c < MATRIX_COLS && (r, c) != (row, col) ==> b.ledAt(r, c) != i
  }

  /** Within a row, the LED under (row, col) ends up with that key's colour. */
  lemma {:induction false} PaintColsSets(leds: seq<Rgb>, b: Board, layer: nat, ledMin: uint8, ledMax: uint8, row: nat, col: nat, n: nat, i: nat)
    requires ledMax <= |leds| && layer < LayerRgbMapSize
    requires OnlyPositionOf(b, row, col, i) && InBatch(i, ledMin, ledMax) && col < n <= MATRIX_COLS
    ensures PaintCols(leds, b, layer, ledMin, ledMax, row, n)[i] == KeyColor(LayerRgbEntry(layer), b.keyAt(layer, row, col))
  {
    if n - 1 == col {
      PaintColsFrame(leds, b, layer, ledMin, ledMax, row, n - 1, i);
    } else {
      PaintColsSets(leds, b, layer, ledMin, ledMax, row, col, n - 1, i);
      var c := n - 1;
      assert (row, c) != (row, col);
      assert b.ledAt(row, c) != i;
      PaintKeyFrame(PaintCols(leds, b, layer, ledMin, ledMax, row, n - 1), b, layer, ledMin, ledMax, row, n - 1, i);
    }
  }

  /** Across rows, the LED under (row, col) ends up with that key's colour. */
  lemma {:induction false} PaintRowsSets(leds: seq<Rgb>, b: Board, layer: nat, ledMin: uint8, ledMax: uint8, row: nat, col: nat, m: nat, i: nat)
    requires ledMax <= |leds| && layer < LayerRgbMapSize
    requires OnlyPositionOf(b, row, col, i) && InBatch(i, ledMin, ledMax) && row < m <= MATRIX_ROWS
    ensures PaintRows(leds, b, layer, ledMin, ledMax, m)[i] == KeyColor(LayerRgbEntry(layer), b.keyAt(layer, row, col))
  {
    var before := PaintRows(leds, b, layer, ledMin, ledMax, m - 1);
    if m - 1 == row {
      PaintColsSets(before, b, layer, ledMin, ledMax, row, col, MATRIX_COLS, i);
    } else {
      PaintRowsSets(leds, b, layer, ledMin, ledMax, row, col, m - 1, i);
      var r := m - 1;
      forall c | 0 <= c < MATRIX_COLS
        ensures b.ledAt(r, c) != i
      {
        assert (r, c) != (row, col);
      }
      PaintColsFrame(before, b, layer, ledMin, ledMax, r, MATRIX_COLS, i);
    }
  }

  /**
   * On a lit layer, an LED of the batch that sits under exactly one key gets
   * that key's colour: off for KC_NO / KC_TRNS, else its own `key_rgb_map`
   * colour if it has one, else the layer colour.
   */
  lemma IndicateColorsKey(leds: seq<Rgb>, b: Board, layers: LayerState, ledMin: uint8, ledMax: uint8, row: nat, col: nat)
    requires ledMax <= |leds| && GetRgbLayer(layers) > 0
    requires OnlyPositionOf(b, row, col, b.ledAt(row, col)) && InBatch(b.ledAt(row, col), ledMin, ledMax)
    ensures var layer := GetRgbLayer(layers);
      var key := b.keyAt(layer, row, col);
      var c := Indicate(leds, b, layers, ledMin, ledMax)[b.ledAt(row, col)];
      (key <= KC_TRNS ==> c == RGB_OFF) &&
      (key > KC_TRNS && HasKeyColor(key) ==> c == KeyRgbEntry(key)) &&
      (key > KC_TRNS && !HasKeyColor(key) ==> c == LayerRgbEntry(layer)) &&
      (NonBlack(c) <==> key > KC_TRNS)
  {
    PaintRowsSets(leds, b, GetRgbLayer(layers), ledMin, ledMax, row, col, MATRIX_ROWS, b.ledAt(row, col));
  }
}
