/** Sample-level helpers shared by the effect models: C's fabs and an optional value. */
module Samples {

  /** fabs on a sample. */
  function Abs(x: real): (r: real)
    ensures r >= 0.0 && (r == x || r == -x)
  {
    if x < 0.0 then -x else x
  }

  datatype Option<+T> = None | Some(value: T)
}
