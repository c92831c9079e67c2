/** What several parts of the model share. */
module Wrappers {

  datatype Option<+T> = None | Some(value: T)

  /** The things a number stands for, where 0 stands for none. */
  function Sole(n: nat): set<nat> {
    if n == 0 then {} else {n}
  }

  /** How the surroundings answer a question: always the same, or anything, each time anew. */
  datatype Forecast<+T> = Always(value: T) | Open

  method Ask<T(0)>(forecast: Forecast<T>) returns (answer: T)
    ensures forecast.Always? ==> answer == forecast.value
  {
    if forecast.Always? {
      answer := forecast.value;
    } else {
      answer := *;
    }
  }
}
