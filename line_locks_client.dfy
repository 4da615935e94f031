/** The client's line-lock table over every document: reentrant locking that
    answers with the owner, owner-only unlocking, and releasing everything a
    user holds. */
module ClientLocks {
  import opened LockMaps

  /** One document's lines, empty for a document never locked. */
  function LinesOf(locks: DocLocks, docId: string): LineLocks {
    if docId in locks then locks[docId] else map[]
  }

  class LineLockManager {
    var locks: DocLocks

    constructor ()
      ensures locks == map[]
    {
      locks := map[];
    }

    /** Takes a free line or one `userId` already holds and answers
        `userId`; otherwise answers the holder and changes nothing. Either
        way the answer is the line's owner afterwards. */
    method TryLock(docId: string, lineIndex: int, userId: string) returns (owner: string)
      modifies this
      ensures docId in locks && lineIndex in locks[docId] && locks[docId][lineIndex] == owner
      ensures var lines := LinesOf(old(locks), docId);
        if lineIndex !in lines || lines[lineIndex] == userId then
          owner == userId && locks == old(locks)[docId := lines[lineIndex := userId]]
        else
          owner == lines[lineIndex] && locks == old(locks)
    {
      var lines := if docId in locks then locks[docId] else map[];
      locks := locks[docId := lines];
      if lineIndex !in lines || lines[lineIndex] == userId {
        locks := locks[docId := lines[lineIndex := userId]];
        return userId;
      }
      owner := lines[lineIndex];
    }

    /** Frees the line only for its owner. */
    method Unlock(docId: string, lineIndex: int, userId: string)
      modifies this
      ensures docId in old(locks) && lineIndex in old(locks)[docId] && old(locks)[docId][lineIndex] == userId ==>
        locks == old(locks)[docId := old(locks)[docId] - {lineIndex}]
      ensures !(docId in old(locks) && lineIndex in old(locks)[docId] && old(locks)[docId][lineIndex] == userId) ==>
        locks == old(locks)
    {
      if docId !in locks {
        return;
      }
      var lines := locks[docId];
      if lineIndex in lines && lines[lineIndex] == userId {
        locks := locks[docId := lines - {lineIndex}];
      }
    }

    /** Drops every line `userId` holds, in every document. */
    method ReleaseAllByUser(userId: string)
      modifies this
      ensures locks == ReleaseAll(old(locks), userId)
    {
      locks := RemoveAllOwnedBy(locks, userId);
    }
  }

  /** Two users asking for the same free line: the first gets it, the second
      is told the first holds it, and asking again keeps the first's lock. */
  method LockIsExclusive(m: LineLockManager, docId: string, lineIndex: int, a: string, b: string)
    returns (first: string, second: string)
    requires a != b
    requires lineIndex !in LinesOf(m.locks, docId)
    modifies m
    ensures first == a && second == a
    ensures m.locks == old(m.locks)[docId := LinesOf(old(m.locks), docId)[lineIndex := a]]
  {
    first := m.TryLock(docId, lineIndex, a);
    second := m.TryLock(docId, lineIndex, b);
  }
}
