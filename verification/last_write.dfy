/** The value a chain of builder calls leaves in one field: the argument of
    the last call that writes that field, or the field's initial value when
    no call does. */
module LastWrite {
  import opened Wrappers

  /** `pick(s)` is the value setter call `s` writes into the field of
      interest, or `None` if `s` does not write that field. */
  function LastOf<S, T>(calls: seq<S>, pick: S -> Option<T>, initial: T): T {
    if |calls| == 0 then initial
    else pick(calls[|calls| - 1]).GetOr(LastOf(calls[..|calls| - 1], pick, initial))
  }
}
