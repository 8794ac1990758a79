/** The lid and its electromagnetic lock. */
module LidModel {
  datatype LidMove = UserOpen | UserClose

  datatype Lid = Lid(closed: bool, locked: bool) {
    function Move(m: LidMove): Lid {
      match m
      case UserOpen => if locked then this else this.(closed := false)
      case UserClose => this.(closed := true)
    }

    function SetLock(on: bool): Lid {
      if closed then this.(locked := on) else this
    }

    /** The latch only holds a lid that is shut. */
    predicate Valid() {
      locked ==> closed
    }
  }

  const SHUT := Lid(true, false)

  function Moves(l: Lid, ms: seq<LidMove>): Lid {
    if ms == [] then l else Moves(l, ms[..|ms| - 1]).Move(ms[|ms| - 1])
  }

  lemma {:induction false} LockedStaysShut(l: Lid, ms: seq<LidMove>)
    requires l.Valid()
    ensures Moves(l, ms).Valid()
    ensures Moves(l, ms).locked == l.locked
    ensures l.locked ==> Moves(l, ms) == l
  {
    if ms != [] {
      LockedStaysShut(l, ms[..|ms| - 1]);
    }
  }

  /** An unlocked lid is as the user last moved it. */
  lemma UnlockedFollowsTheUser(l: Lid, ms: seq<LidMove>)
    requires l.Valid() && !l.locked && ms != []
    ensures Moves(l, ms) == Lid(ms[|ms| - 1] == UserClose, false)
  {
    LockedStaysShut(l, ms[..|ms| - 1]);
  }

  class LidModel {
    var closed: bool
    var locked: bool

    ghost function Abs(): Lid
      reads this
    {
      Lid(closed, locked)
    }

    constructor ()
      ensures Abs() == SHUT
    {
      closed, locked := true, false;
    }

    method OpenByUser()
      modifies this
      ensures Abs() == old(Abs()).Move(UserOpen)
    {
      if !locked {
        closed := false;
      }
    }

    method CloseByUser()
      modifies this
      ensures Abs() == old(Abs()).Move(UserClose)
    {
      closed := true;
    }

    method SetLock(on: bool)
      modifies this
      ensures Abs() == old(Abs()).SetLock(on)
    {
      if closed {
        locked := on;
      }
    }
  }
}
