/** The state of the Qt controls whose values the modelled handlers set. */
module Widgets {

  /** A slider whose minimum is 0. */
  datatype Slider = Slider(maximum: int, value: int)
}
