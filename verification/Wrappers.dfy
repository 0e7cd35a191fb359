/** The optional value used wherever the sources hold a nullable field. */
module Wrappers {
  datatype Option<+T> = None | Some(value: T)

  function OrEmpty(s: Option<string>): string {
    if s.Some? then s.value else ""
  }

  function OrZero(n: Option<int>): int {
    if n.Some? then n.value else 0
  }
}
