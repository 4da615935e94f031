/** The client's view of who holds which line of the open document, kept in
    step with the server's LOCK and UNLOCK messages, and the requests it
    sends for its own user. */
module LockControl {
  import opened Common

  /** The LOCK or UNLOCK request for one line, sent as `userId`. */
  function LockRequest(mode: Mode, docId: string, lineIndex: int, userId: string): Message {
    NewMessage(mode, userId, None).(docId := Some(docId), blockId := lineIndex)
  }

  class LineLockController {
    const userId: string
    var ownerByLine: map<int, string>
    /** Every message sent to the server, oldest first. */
    var sent: seq<Message>

    constructor (userId: string)
      ensures this.userId == userId && ownerByLine == map[] && sent == []
    {
      this.userId := userId;
      ownerByLine := map[];
      sent := [];
    }

    /** Asks the server for the line; nothing is sent without a document. */
    method RequestLock(docId: Option<string>, lineIndex: int)
      modifies this
      ensures ownerByLine == old(ownerByLine)
      ensures docId.None? ==> sent == old(sent)
      ensures docId.Some? ==> sent == old(sent) + [LockRequest(Mode.Lock, docId.value, lineIndex, userId)]
    {
      if docId.None? {
        return;
      }
      sent := sent + [LockRequest(Mode.Lock, docId.value, lineIndex, userId)];
    }

    /** Tells the server the line is released; nothing is sent without a
        document. */
    method Unlock(docId: Option<string>, lineIndex: int)
      modifies this
      ensures ownerByLine == old(ownerByLine)
      ensures docId.None? ==> sent == old(sent)
      ensures docId.Some? ==> sent == old(sent) + [LockRequest(Mode.Unlock, docId.value, lineIndex, userId)]
    {
      if docId.None? {
        return;
      }
      sent := sent + [LockRequest(Mode.Unlock, docId.value, lineIndex, userId)];
    }

    predicate IsLockedByOther(lineIndex: int)
      reads this
    {
      lineIndex in ownerByLine && ownerByLine[lineIndex] != userId
    }

    predicate IsLockedByMe(lineIndex: int)
      reads this
    {
      lineIndex in ownerByLine && ownerByLine[lineIndex] == userId
    }

    /** Records the owner the server announced; a null owner is ignored. */
    method OnRemoteLock(lineIndex: int, ownerId: Option<string>)
      modifies this
      ensures sent == old(sent)
      ensures ownerId.None? ==> ownerByLine == old(ownerByLine)
      ensures ownerId.Some? ==> ownerByLine == old(ownerByLine)[lineIndex := ownerId.value]
      ensures ownerId.Some? ==>
        && (IsLockedByMe(lineIndex) <==> ownerId.value == userId)
        && (IsLockedByOther(lineIndex) <==> ownerId.value != userId)
    {
      if ownerId.None? {
        return;
      }
      ownerByLine := ownerByLine[lineIndex := ownerId.value];
    }

    /** Forgets the line's owner, whoever the server says released it. */
    method OnRemoteUnlock(lineIndex: int, ownerId: Option<string>)
      modifies this
      ensures sent == old(sent)
      ensures ownerByLine == old(ownerByLine) - {lineIndex}
      ensures !IsLockedByMe(lineIndex) && !IsLockedByOther(lineIndex)
    {
      ownerByLine := ownerByLine - {lineIndex};
    }

    method ResetAllLocks()
      modifies this
      ensures sent == old(sent)
      ensures ownerByLine == map[]
      ensures forall line :: !IsLockedByMe(line) && !IsLockedByOther(line)
    {
      ownerByLine := map[];
    }
  }

  /** A line is never held both by this user and by someone else; a held
      line is one or the other. */
  lemma LockedByMeOrOther(c: LineLockController, lineIndex: int)
    ensures !(c.IsLockedByMe(lineIndex) && c.IsLockedByOther(lineIndex))
    ensures lineIndex in c.ownerByLine <==> c.IsLockedByMe(lineIndex) || c.IsLockedByOther(lineIndex)
  {
  }
}
