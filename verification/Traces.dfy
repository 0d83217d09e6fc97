// A run of a state machine, as the sequence of events that made it, latest last.
module Traces {
  datatype Trace<E> = Start | Then(before: Trace<E>, event: E)

  predicate Extends<E(==)>(later: Trace<E>, from: Trace<E>) {
    later == from || (later.Then? && Extends(later.before, from))
  }
}
