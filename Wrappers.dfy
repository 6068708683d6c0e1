/** The nullable values of the source (`Verb | null`, `QuestItem | null`, `string | null`). */
module Wrappers {

  datatype Option<+T> = None | Some(value: T)

  function Min(a: int, b: int): int {
    if a <= b then a else b
  }
}
