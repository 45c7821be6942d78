/** Terrain cell codes as the simulation and its editors exchange them, and
    the values a `Float32Array` actually stores for them. */
module Terrain {

  /** Impassable cell. */
  const OBSTACLE: real := 0.0
  /** Difficult cell, as the editors and the fallback maze write it (a double). */
  const DIFFICULT: real := 0.3
  /** Open cell. */
  const TRAVERSABLE: real := 1.0
  /** Goal-placement directive sent by the grid editor; never stored by an edit. */
  const SOURCE: real := 3.0

  /** The float32 nearest to 0.3 (bit pattern 0x3E99999A): what a
      `Float32Array` holds after `a[i] = 0.3`, and what reading it back yields. */
  const F32_DIFFICULT: real := 10066330.0 / 33554432.0

  predicate IsCellCode(v: real)
  {
    v == OBSTACLE || v == DIFFICULT || v == TRAVERSABLE || v == SOURCE
  }

  /** The value stored by a `Float32Array` element assignment of a cell code.
      0.0, 1.0 and 3.0 are exact in float32; 0.3 is not. */
  function StoredFloat32(v: real): (r: real)
    requires IsCellCode(v)
    ensures r == v <==> v != DIFFICULT
    ensures v == DIFFICULT ==> r == F32_DIFFICULT
  {
    if v == DIFFICULT then F32_DIFFICULT else v
  }

  /** A value a grid cell can hold after the editors, the reset and the
      fallback maze have written it. */
  predicate IsStoredCode(v: real)
  {
    v == OBSTACLE || v == F32_DIFFICULT || v == TRAVERSABLE || v == SOURCE
  }

  lemma StoredCodeIsStored(v: real)
    requires IsCellCode(v)
    ensures IsStoredCode(StoredFloat32(v))
  {
  }
}
