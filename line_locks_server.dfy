/** The server's per-document line-lock table: a line is taken only when
    free (holding it already does not help), and freed only by its owner. */
module ServerLocks {
  import opened Common

  class LineLockManager {
    var lineLocks: map<int, string>

    constructor ()
      ensures lineLocks == map[]
    {
      lineLocks := map[];
    }

    /** True, with `userId` recorded, exactly when the line was free. */
    method TryLock(lineIndex: int, userId: string) returns (ok: bool)
      modifies this
      ensures ok <==> lineIndex !in old(lineLocks)
      ensures ok ==> lineLocks == old(lineLocks)[lineIndex := userId]
      ensures !ok ==> lineLocks == old(lineLocks)
    {
      if lineIndex in lineLocks {
        return false;
      }
      lineLocks := lineLocks[lineIndex := userId];
      ok := true;
    }

    /** Frees the line only for its owner. */
    method Unlock(lineIndex: int, userId: string)
      modifies this
      ensures lineIndex in old(lineLocks) && old(lineLocks)[lineIndex] == userId ==>
        lineLocks == old(lineLocks) - {lineIndex}
      ensures !(lineIndex in old(lineLocks) && old(lineLocks)[lineIndex] == userId) ==>
        lineLocks == old(lineLocks)
    {
      if lineIndex in lineLocks && lineLocks[lineIndex] == userId {
        lineLocks := lineLocks - {lineIndex};
      }
    }

    /** The holder of the line; null when it is free. */
    function GetOwner(lineIndex: int): (owner: Option<string>)
      reads this
      ensures owner.None? <==> lineIndex !in lineLocks
      ensures owner.Some? ==> owner.value == lineLocks[lineIndex]
    {
      if lineIndex in lineLocks then Some(lineLocks[lineIndex]) else None
    }
  }

  /** Two users asking for the same free line: only the first succeeds and
      stays the owner; the second cannot unlock it. */
  method LockIsExclusive(m: LineLockManager, lineIndex: int, a: string, b: string)
    returns (first: bool, second: bool)
    requires a != b
    requires lineIndex !in m.lineLocks
    modifies m
    ensures first && !second
    ensures m.GetOwner(lineIndex) == Some(a)
  {
    first := m.TryLock(lineIndex, a);
    second := m.TryLock(lineIndex, b);
    m.Unlock(lineIndex, b);
  }
}
