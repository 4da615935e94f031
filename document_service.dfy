/** Routing of sessions between document rooms: opening a document (leave
    the old room, join the new one, receive a snapshot), leaving it,
    forwarding an edit to the room of the sender's open document, and
    deleting a document. */
module Service {
  import opened Common
  import opened Documents
  import opened Storage
  import opened Sessions
  import opened Rooms
  import opened Registry

  class DocumentService {
    const storage: DocumentStorage
    const registry: DocumentRegistry

    /** The open rooms, their state machines, and the sessions in them. */
    ghost function RoomSet(): set<DocumentRoom>
      reads registry
    {
      registry.rooms.Values
    }

    ghost function Managers(): set<DocumentManager>
      reads registry
    {
      set r | r in registry.rooms.Values :: r.manager
    }

    ghost function Members(): set<Session>
      reads registry, RoomSet()
    {
      set r, h | r in registry.rooms.Values && h in r.members :: h
    }

    /** Each room is filed under its own id, shares the service's storage,
        keeps its own invariant, and owns a state machine no other room has. */
    ghost predicate Valid()
      reads registry, RoomSet(), Managers()
    {
      && (forall d :: d in registry.rooms ==>
            && registry.rooms[d].docId == d
            && registry.rooms[d].storage == storage
            && registry.rooms[d].Valid())
      && (forall d1, d2 :: d1 in registry.rooms && d2 in registry.rooms && d1 != d2 ==>
            registry.rooms[d1].manager != registry.rooms[d2].manager)
    }

    constructor (storage: DocumentStorage)
      ensures Valid() && this.storage == storage && fresh(registry) && registry.rooms == map[]
    {
      this.storage := storage;
      registry := new DocumentRegistry();
    }

    /** What the room for `d` will hold once it has loaded, before an edit is
        applied: a loaded room's current state, otherwise what loading will
        bring in (an absent room starts empty). */
    ghost function PreEditState(d: string): Doc
      reads registry, RoomSet(), Managers(), storage
    {
      if d in registry.rooms then
        var r := registry.rooms[d];
        if r.loaded then r.manager.State() else AfterLoad(r.manager.State(), storage.StoredAfterEnsure(d))
      else AfterLoad(Doc([], map[]), storage.StoredAfterEnsure(d))
    }

    /** Whether the room for `d` is open and has already read storage. */
    ghost function WasLoaded(d: string): bool
      reads registry, RoomSet()
    {
      d in registry.rooms && registry.rooms[d].loaded
    }

    /** The autosave step the next edit of `d` takes: from the room's
        counters, or from a new room's zero counters. */
    ghost function AutosaveFor(d: string, now: int): Autosave
      reads registry, RoomSet()
    {
      if d in registry.rooms then AutosaveStep(registry.rooms[d].dirtyEdits, registry.rooms[d].lastSaveMs, now)
      else AutosaveStep(0, 0, now)
    }

    /** Removes `h` from the room of its open document and clears that id. */
    method Leave(h: Session?)
      requires Valid()
      modifies RoomSet(), h
      ensures Valid()
      ensures registry.rooms == old(registry.rooms)
      ensures h == null || old(h.currentDocId).None? ==> forall r :: r in RoomSet() ==> unchanged(r)
      ensures h != null ==> forall r :: r in RoomSet() && Some(r.docId) != old(h.currentDocId) ==> unchanged(r)
      ensures forall r :: r in RoomSet() ==>
        r.loaded == old(r.loaded) && r.dirtyEdits == old(r.dirtyEdits) && r.lastSaveMs == old(r.lastSaveMs)
      ensures h != null ==> h.outbox == old(h.outbox)
      ensures h != null && old(h.currentDocId).Some? ==>
        && h.currentDocId == None
        && forall r :: r in RoomSet() ==>
             r.members == (if Some(r.docId) == old(h.currentDocId) then old(r.members) - {h} else old(r.members))
    {
      if h == null {
        return;
      }
      var old_ := h.currentDocId;
      if old_.None? {
        return;
      }
      var room := registry.GetIfPresent(old_);
      if room != null {
        room.Leave(h);
      }
      h.currentDocId := None;
    }

    /** Moves `h` to the room of `docId` and sends it a snapshot; a null id
        or session is ignored. */
    method Open(docId: Option<string>, h: Session?)
      requires Valid()
      modifies registry, RoomSet(), Managers(), storage, h
      ensures Valid()
      ensures docId.None? || h == null ==>
        && registry.rooms == old(registry.rooms)
        && (forall r :: r in RoomSet() ==> unchanged(r) && unchanged(r.manager))
        && unchanged(storage)
        && (h != null ==> unchanged(h))
      ensures docId.Some? && h != null ==>
        var d := docId.value;
        && d in registry.rooms
        && registry.rooms == old(registry.rooms)[d := registry.rooms[d]]
        && (d in old(registry.rooms) ==> registry.rooms[d] == old(registry.rooms)[d])
        && h in registry.rooms[d].members
        && h.currentDocId == Some(d)
        && |old(h.outbox)| <= |h.outbox| && h.outbox[..|old(h.outbox)|] == old(h.outbox)
        && IsSnapshotFor(h.outbox[|old(h.outbox)|..], d, storage.TitleFor(d), registry.rooms[d].manager.State())
        && (old(h.currentDocId).Some? && old(h.currentDocId).value != d && old(h.currentDocId).value in old(registry.rooms) ==>
              h !in registry.rooms[old(h.currentDocId).value].members)
        && (d in old(registry.rooms) ==>
              && registry.rooms[d].members == old(registry.rooms[d].members) + {h}
              && registry.rooms[d].dirtyEdits == old(registry.rooms[d].dirtyEdits)
              && registry.rooms[d].lastSaveMs == old(registry.rooms[d].lastSaveMs))
        && (d !in old(registry.rooms) ==> registry.rooms[d].members == {h})
        && registry.rooms[d].loaded && registry.rooms[d].manager.State() == old(PreEditState(d))
        && (forall r :: r in old(RoomSet()) && r.docId != d ==>
              && unchanged(r.manager)
              && r.loaded == old(r.loaded) && r.dirtyEdits == old(r.dirtyEdits) && r.lastSaveMs == old(r.lastSaveMs)
              && r.members == (if Some(r.docId) == old(h.currentDocId) then old(r.members) - {h} else old(r.members)))
        && storage.saveCount == old(storage.saveCount)
        && storage.states == EnsuredStates(old(storage.states), d)
        && storage.titles == EnsuredTitles(old(storage.titles), d)
    {
      if docId.None? || h == null {
        return;
      }
      Leave(h);
      Enter(docId.value, h);
    }

    /** The second half of Open: join the room of `d`, made if need be, and
        receive its snapshot. */
    method Enter(d: string, h: Session)
      requires Valid()
      modifies registry, RoomSet(), Managers(), storage, h
      ensures Valid()
      ensures d in registry.rooms
      ensures registry.rooms == old(registry.rooms)[d := registry.rooms[d]]
      ensures d in old(registry.rooms) ==> registry.rooms[d] == old(registry.rooms)[d]
      ensures forall r :: r in old(RoomSet()) && r.docId != d ==> unchanged(r) && unchanged(r.manager)
      ensures h in registry.rooms[d].members
      ensures d in old(registry.rooms) ==>
        && registry.rooms[d].members == old(registry.rooms[d].members) + {h}
        && registry.rooms[d].dirtyEdits == old(registry.rooms[d].dirtyEdits)
        && registry.rooms[d].lastSaveMs == old(registry.rooms[d].lastSaveMs)
      ensures d !in old(registry.rooms) ==> registry.rooms[d].members == {h}
      ensures registry.rooms[d].loaded && registry.rooms[d].manager.State() == old(PreEditState(d))
      ensures storage.saveCount == old(storage.saveCount)
      ensures storage.states == EnsuredStates(old(storage.states), d)
      ensures storage.titles == EnsuredTitles(old(storage.titles), d)
      ensures h.currentDocId == Some(d)
      ensures |old(h.outbox)| <= |h.outbox| && h.outbox[..|old(h.outbox)|] == old(h.outbox)
      ensures IsSnapshotFor(h.outbox[|old(h.outbox)|..], d, storage.TitleFor(d), registry.rooms[d].manager.State())
    {
      var room := registry.GetOrCreate(Some(d), storage);
      room.Join(h);
      room.SendSnapshotTo(h);
    }

    /** Forwards an edit to the room of the sender's open document; the edit
        is dropped when it, its document id or the sender is missing, or the
        sender has another document open. */
    method ApplyEdit(msg: Option<Message>, sender: Session?, now: int)
      requires Valid()
      modifies registry, RoomSet(), Managers(), storage, Members()
      ensures Valid()
      ensures msg.None? || msg.value.docId.None? || sender == null || sender.currentDocId != msg.value.docId ==>
        && registry.rooms == old(registry.rooms)
        && (forall r :: r in RoomSet() ==> unchanged(r) && unchanged(r.manager))
        && unchanged(storage)
        && (forall h :: h in Members() ==> unchanged(h))
      ensures msg.Some? && msg.value.docId.Some? && sender != null && sender.currentDocId == msg.value.docId ==>
        var d := msg.value.docId.value;
        && d in registry.rooms
        && registry.rooms == old(registry.rooms)[d := registry.rooms[d]]
        && registry.rooms[d].manager.State() == Step(old(PreEditState(d)), msg)
        && (d !in old(registry.rooms) ==> registry.rooms[d].members == {})
        && (d in old(registry.rooms) ==>
              && registry.rooms[d].members == old(registry.rooms[d].members)
              && forall h :: h in old(registry.rooms[d].members) ==>
                   h.outbox == old(h.outbox) + (if h == sender then [] else [msg.value]) && h.currentDocId == old(h.currentDocId))
        && (forall r :: r in old(RoomSet()) && r.docId != d ==> unchanged(r) && unchanged(r.manager))
        && (forall h :: h in old(Members()) && !(d in old(registry.rooms) && h in old(registry.rooms[d].members)) ==>
              unchanged(h))
        && registry.rooms[d].loaded
        && var a := old(AutosaveFor(d, now));
        && registry.rooms[d].dirtyEdits == a.dirtyEdits && registry.rooms[d].lastSaveMs == a.lastSaveMs
        && storage.saveCount == old(storage.saveCount) + (if a.save then 1 else 0)
        && (a.save ==>
              && d in storage.states && IsSnapshotOf(storage.states[d], registry.rooms[d].manager.State())
              && storage.states == old(storage.states)[d := storage.states[d]]
              && storage.titles == SavedTitles(old(storage.titles), d))
        && (!a.save && old(WasLoaded(d)) ==> storage.states == old(storage.states) && storage.titles == old(storage.titles))
        && (!a.save && !old(WasLoaded(d)) ==>
              && storage.states == EnsuredStates(old(storage.states), d)
              && storage.titles == EnsuredTitles(old(storage.titles), d))
    {
      if msg.None? || msg.value.docId.None? || sender == null {
        return;
      }
      var cur := sender.currentDocId;
      if cur.None? || cur != msg.value.docId {
        return;
      }
      Edit(msg.value.docId.value, msg.value, sender, now);
    }

    /** The accepted half of ApplyEdit: the room of `d`, made if need be,
        applies `m`, relays it and counts it towards autosave. */
    method Edit(d: string, m: Message, sender: Session, now: int)
      requires Valid()
      modifies registry, RoomSet(), Managers(), storage, Members()
      ensures Valid()
      ensures d in registry.rooms
      ensures registry.rooms == old(registry.rooms)[d := registry.rooms[d]]
      ensures registry.rooms[d].manager.State() == Step(old(PreEditState(d)), Some(m))
      ensures d !in old(registry.rooms) ==> registry.rooms[d].members == {}
      ensures d in old(registry.rooms) ==>
        && registry.rooms[d].members == old(registry.rooms[d].members)
        && forall h :: h in old(registry.rooms[d].members) ==>
             h.outbox == old(h.outbox) + (if h == sender then [] else [m]) && h.currentDocId == old(h.currentDocId)
      ensures forall r :: r in old(RoomSet()) && r.docId != d ==> unchanged(r) && unchanged(r.manager)
      ensures forall h :: h in old(Members()) && !(d in old(registry.rooms) && h in old(registry.rooms[d].members)) ==>
        unchanged(h)
      ensures registry.rooms[d].loaded
      ensures registry.rooms[d].dirtyEdits == old(AutosaveFor(d, now)).dirtyEdits
      ensures registry.rooms[d].lastSaveMs == old(AutosaveFor(d, now)).lastSaveMs
      ensures storage.saveCount == old(storage.saveCount) + (if old(AutosaveFor(d, now)).save then 1 else 0)
      ensures old(AutosaveFor(d, now)).save ==>
        && d in storage.states && IsSnapshotOf(storage.states[d], registry.rooms[d].manager.State())
        && storage.states == old(storage.states)[d := storage.states[d]]
        && storage.titles == SavedTitles(old(storage.titles), d)
      ensures !old(AutosaveFor(d, now)).save && old(WasLoaded(d)) ==>
        storage.states == old(storage.states) && storage.titles == old(storage.titles)
      ensures !old(AutosaveFor(d, now)).save && !old(WasLoaded(d)) ==>
        && storage.states == EnsuredStates(old(storage.states), d)
        && storage.titles == EnsuredTitles(old(storage.titles), d)
    {
      var room := registry.GetOrCreate(Some(d), storage);
      room.ApplyAndBroadcast(m, sender, now);
    }

    /** Closes the document's room, then deletes it from storage. */
    method Delete(docId: Option<string>) returns (ok: bool)
      requires Valid()
      modifies registry, storage
      ensures Valid()
      ensures docId.None? ==> registry.rooms == old(registry.rooms)
      ensures docId.Some? ==> registry.rooms == old(registry.rooms) - {docId.value}
      ensures ok <==> docId.Some? && !Blank(docId.value)
                      && (docId.value in old(storage.states) || docId.value in old(storage.titles))
      ensures ok ==> storage.states == old(storage.states) - {docId.value}
      ensures ok ==> storage.titles == old(storage.titles) - {docId.value}
      ensures !ok ==> storage.states == old(storage.states) && storage.titles == old(storage.titles)
      ensures forall r :: r in RoomSet() ==> r in old(RoomSet())
    {
      registry.Remove(docId);
      ok := storage.Delete(docId);
    }
  }
}
