/** The configuration error codes a setup step can return; `NoError` is success. */
module Errors {
  import opened Alphabet

  datatype Status =
    | NoError
    | InvalidIndex
    | ImpossiblePlugboardConfiguration
    | IncorrectNumberOfPlugboardParameters
    | InvalidRotorMapping
    | NoRotorStartingPosition
    | InvalidReflectorMapping
    | IncorrectNumberOfReflectorParameters

  /** The range check every configuration reader applies to a letter index. */
  function CheckIndex(letterIndex: int): (r: Status)
    ensures r == NoError || r == InvalidIndex
    ensures r == NoError <==> InRange(letterIndex)
  {
    if letterIndex < AIndex || letterIndex > ZIndex then InvalidIndex else NoError
  }
}
