/** The exceptions the modelled code raises. */
module Errors {
  import opened Registry

  datatype Error =
    | KeyError(stat: Stat)   // team 2's statistics lack a category team 1 reports
    | TypeError              // a call with a missing argument, or a subscript of an int
    | ValueError             // a week out of range, the index of an absent week, the max of nothing
}
