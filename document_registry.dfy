/** The server's table of open documents: one room per document id, created
    on first use. */
module Registry {
  import opened Common
  import opened Documents
  import opened Storage
  import opened Rooms

  class DocumentRegistry {
    var rooms: map<string, DocumentRoom>

    constructor ()
      ensures rooms == map[]
    {
      rooms := map[];
    }

    /** The room for `docId` if one is open; never creates one. */
    function GetIfPresent(docId: Option<string>): (r: DocumentRoom?)
      reads this
      ensures docId.None? ==> r == null
      ensures docId.Some? ==> (r != null <==> docId.value in rooms)
      ensures r != null ==> r == rooms[docId.value]
    {
      if docId.Some? && docId.value in rooms then rooms[docId.value] else null
    }

    /** The room for `docId`, made (fresh, empty, not yet loaded) when none
        is open; null for a null id. */
    method GetOrCreate(docId: Option<string>, storage: DocumentStorage) returns (r: DocumentRoom?)
      modifies this
      ensures docId.None? ==> r == null && rooms == old(rooms)
      ensures docId.Some? && docId.value in old(rooms) ==> r == old(rooms)[docId.value] && rooms == old(rooms)
      ensures docId.Some? && docId.value !in old(rooms) ==>
        && r != null && fresh(r) && fresh(r.manager)
        && r.docId == docId.value && r.storage == storage && r.Valid()
        && r.members == {} && !r.loaded && r.dirtyEdits == 0 && r.lastSaveMs == 0
        && r.manager.State() == Doc([], map[])
        && rooms == old(rooms)[docId.value := r]
    {
      if docId.None? {
        return null;
      }
      if docId.value in rooms {
        return rooms[docId.value];
      }
      r := new DocumentRoom(docId.value, storage);
      rooms := rooms[docId.value := r];
    }

    /** Forgets the room for `docId`; a null id is ignored. */
    method Remove(docId: Option<string>)
      modifies this
      ensures docId.None? ==> rooms == old(rooms)
      ensures docId.Some? ==> rooms == old(rooms) - {docId.value}
      ensures GetIfPresent(docId) == null
    {
      if docId.None? {
        return;
      }
      rooms := rooms - {docId.value};
    }
  }

  /** Asking twice for the same id gives the same room, and a removed id is
      no longer present. */
  method GetOrCreateIsStable(reg: DocumentRegistry, docId: string, storage: DocumentStorage)
    returns (first: DocumentRoom?, second: DocumentRoom?)
    modifies reg
    ensures first != null && first == second
    ensures reg.GetIfPresent(Some(docId)) == first
  {
    first := reg.GetOrCreate(Some(docId), storage);
    second := reg.GetOrCreate(Some(docId), storage);
  }
}
