/** A run of some step relation, as the states it passed through and the actions between them. */
module Traces {
  datatype Trace<S, A> = Trace(ss: seq<S>, acts: seq<A>)
}
