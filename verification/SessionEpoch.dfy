/** The counter and the marker of the session epoch, called by one task at a time. How the atomic
    steps of several tasks interleave is the subject of the module DesktopSession. */
module SessionEpoch {

  const LAST: nat := 0xFFFF_FFFF_FFFF_FFFF

  class SessionEpoch {
    var value: nat
    var active: nat

    /** Holds as long as the counter has not come full circle. */
    ghost predicate Valid()
      reads this
    {
      active <= value <= LAST
    }

    constructor ()
      ensures Valid() && value == active == 0
    {
      value, active := 0, 0;
    }

    predicate Matches(expected: nat)
      reads this
    {
      value == expected
    }

    predicate IsActive()
      reads this
    {
      active == value
    }

    /** Whatever was current is stale from here on, and nothing is active; only the last epoch of
        all is followed by the first. */
    method Advance() returns (epoch: nat)
      requires Valid()
      modifies this
      ensures active == old(active) && Matches(epoch)
      ensures old(value) < LAST ==> Valid() && epoch == old(value) + 1 && !IsActive()
      ensures old(value) == LAST ==> epoch == 0
      ensures forall e: nat | old(Matches(e)) :: !Matches(e)
    {
      value := (value + 1) % (LAST + 1);
      epoch := value;
    }

    /** A stale login activates nothing. */
    method Activate(expected: nat)
      requires Valid()
      modifies this
      ensures Valid() && value == old(value)
      ensures IsActive() <==> old(IsActive()) || Matches(expected)
      ensures !old(Matches(expected)) ==> active == old(active)
    {
      if value == expected { active := expected; }
    }
  }
}
