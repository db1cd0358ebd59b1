/** The engine's input vocabulary (`Mapping_bitset`): the directions a body
    is asked to move or accelerate in, plus the window controls. `Count`
    is the enum's sentinel, which bodies use as "no direction". */
module Mappings {

  datatype Mapping =
    | Exit | Cursor
    | Forward | Backward | Left | Right | Up | Down
    | Forward1 | Backward1 | Left1 | Right1 | Up1 | Down1
    | Count

  /** The four directions in the horizontal plane of the body. */
  predicate IsHorizontal(d: Mapping)
  {
    d == Forward1 || d == Backward1 || d == Left1 || d == Right1
  }

  /** The two vertical directions. */
  predicate IsVertical(d: Mapping)
  {
    d == Up1 || d == Down1
  }
}
