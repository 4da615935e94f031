/** The legacy server's lock table, kept only to drop a departing user's
    locks. Nothing in it adds an entry, so it stays empty. */
module LegacyLocks {
  import opened Common
  import opened LockMaps

  class LineLockManager {
    var locks: DocLocks

    constructor ()
      ensures locks == map[]
    {
      locks := map[];
    }

    /** Drops every line `userId` holds; a null user is ignored. */
    method ReleaseAllLocksOfUser(userId: Option<string>)
      modifies this
      ensures userId.None? ==> locks == old(locks)
      ensures userId.Some? ==> locks == ReleaseAll(old(locks), userId.value)
    {
      if userId.None? {
        return;
      }
      locks := RemoveAllOwnedBy(locks, userId.value);
    }
  }

  /** Releasing never adds a document or a line, so a table that starts
      empty stays empty whatever is released. */
  lemma ReleaseKeepsEmpty(locks: DocLocks, userId: string)
    requires locks == map[]
    ensures ReleaseAll(locks, userId) == map[]
  {
    ReleaseAllFacts(locks, userId);
  }
}
