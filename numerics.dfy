/**
 * The floating-point and text collaborators the calculator calls but whose
 * code is not part of this model: Kotlin's `String.toDoubleOrNull`,
 * `java.text.DecimalFormat("#,###.##########").format`, IEEE-754 arithmetic
 * on `Double` (which rounds) and the `kotlin.math` functions. Numbers are modelled as `real`; each of
 * these collaborators is an uninterpreted function handed to the engine, so
 * nothing proved here depends on what they compute.
 */
module Numerics {
  import opened Wrappers

  datatype Library = Library(
    toDouble: string -> Option<real>,     // String.toDoubleOrNull / toDouble
    format: real -> string,               // DecimalFormat.format(Double)
    add: (real, real) -> real,            // Double addition
    subtract: (real, real) -> real,       // Double subtraction
    multiply: (real, real) -> real,       // Double multiplication
    divide: (real, real) -> real,         // Double division, total (x / 0.0 is not rejected)
    pow: (real, real) -> real,            // Double.pow
    sqrt: real -> real,
    log10: real -> real,
    ln: real -> real,
    sin: real -> real,
    cos: real -> real,
    tan: real -> real,
    asin: real -> real,
    acos: real -> real,
    atan: real -> real,
    toDegrees: real -> real,              // Math.toDegrees
    toRadians: real -> real               // Math.toRadians
  )
}
