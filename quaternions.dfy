/** Orientations as unit quaternions, one per column of the 4 x n arrays of the source. */
module Quaternions {

  /** A quaternion (w, x, y, z); w is the real part. */
  datatype Quat = Quat(w: real, x: real, y: real, z: real)

  /** The zero column that a freshly allocated buffer holds. */
  const Zero := Quat(0.0, 0.0, 0.0, 0.0)

  /** The crystal's symmetry operators, as quaternions (the source's `qsym`). */
  type QSym = seq<Quat>
}
