/** Go contexts: one with a deadline may expire at any moment and then stays
    expired; the background context never does. */
module Deadline {

  class Context {
    const hasDeadline: bool
    var expired: bool

    constructor (limited: bool)
      ensures hasDeadline == limited && !expired
    {
      hasDeadline, expired := limited, false;
    }

    /** How a context can change while a method uses it. */
    twostate predicate Later()
      reads this
    {
      (old(expired) ==> expired) && (!hasDeadline ==> expired == old(expired))
    }

    /** `ctx.Err() != nil` */
    method Err() returns (e: bool)
      modifies this
      ensures e == expired && Later()
    {
      if hasDeadline {
        if * { expired := true; }
      }
      e := expired;
    }
  }
}
