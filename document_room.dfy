/** One open document on the server: its state machine, the sessions that
    have it open, a load-once flag, the snapshot sent to a joining client,
    the broadcast of every edit to the other members, and the coalescing
    autosave. */
module Rooms {
  import opened Common
  import opened ImageBlocks
  import opened Documents
  import opened Storage
  import opened Sessions

  /** The user id the server puts on the messages it makes itself. */
  const SERVER: string := "server"

  /** Autosave fires after this many unsaved edits ... */
  const AUTOSAVE_EDITS: int := 15
  /** ... or once this many milliseconds have passed since the last save. */
  const AUTOSAVE_INTERVAL_MS: int := 1200

  // ---------------------------------------------------------------------
  // The snapshot a joining client receives

  function FullSyncMessage(docId: string, title: string, text: string): Message {
    NewMessage(FullSync, SERVER, Some(text)).(docId := Some(docId), docTitle := Some(title), offset := 0, length := |text|)
  }

  function SyncEndMessage(docId: string): Message {
    NewMessage(SyncEnd, SERVER, None).(docId := Some(docId))
  }

  /** `sent` is a full snapshot of `d`: FULL_SYNC with the whole text, one
      IMAGE_INSERT per image, then SYNC_END. */
  predicate IsSnapshotFor(sent: seq<Message>, docId: string, title: string, d: Doc) {
    && |sent| >= 2
    && sent[0] == FullSyncMessage(docId, title, d.text)
    && sent[|sent| - 1] == SyncEndMessage(docId)
    && ListsSyncMessages(sent[1..|sent| - 1], d.images, docId, SERVER)
  }

  /** Every message of a snapshot is tagged with the room's document id and
      the server's user id, and the FULL_SYNC covers the whole text from
      offset 0. */
  lemma SnapshotIsTagged(sent: seq<Message>, docId: string, title: string, d: Doc)
    requires IsSnapshotFor(sent, docId, title, d)
    ensures forall i :: 0 <= i < |sent| ==> sent[i].docId == Some(docId) && sent[i].userId == Some(SERVER)
    ensures sent[0].text == Some(d.text) && sent[0].offset == 0 && sent[0].length == |d.text|
  {
    var images := sent[1..|sent| - 1];
    forall i | 0 <= i < |sent|
      ensures sent[i].docId == Some(docId) && sent[i].userId == Some(SERVER)
    {
      if 0 < i < |sent| - 1 {
        assert sent[i] == images[i - 1];
      }
    }
  }

  // ---------------------------------------------------------------------
  // Autosave

  /** The counters after one edit, and whether that edit triggers a save. */
  datatype Autosave = Autosave(dirtyEdits: int, lastSaveMs: int, save: bool)

  function AutosaveStep(dirtyEdits: int, lastSaveMs: int, now: int): (a: Autosave)
    ensures a.save <==> dirtyEdits + 1 >= AUTOSAVE_EDITS || now - lastSaveMs >= AUTOSAVE_INTERVAL_MS
    ensures a.save ==> a.dirtyEdits == 0 && a.lastSaveMs == now
    ensures !a.save ==> a.dirtyEdits == dirtyEdits + 1 && a.lastSaveMs == lastSaveMs
    ensures 0 <= dirtyEdits < AUTOSAVE_EDITS ==> 0 <= a.dirtyEdits < AUTOSAVE_EDITS
  {
    var d := dirtyEdits + 1;
    if d >= AUTOSAVE_EDITS || now - lastSaveMs >= AUTOSAVE_INTERVAL_MS then Autosave(0, now, true)
    else Autosave(d, lastSaveMs, false)
  }

  /** The counters after a run of edits at the given times. */
  function AutosaveRun(dirtyEdits: int, lastSaveMs: int, times: seq<int>): Autosave
    decreases |times|
  {
    if times == [] then Autosave(dirtyEdits, lastSaveMs, false)
    else
      var a := AutosaveStep(dirtyEdits, lastSaveMs, times[0]);
      var rest := AutosaveRun(a.dirtyEdits, a.lastSaveMs, times[1..]);
      rest.(save := a.save || rest.save)
  }

  /** However the clock moves, edits are coalesced but never pile up: a run
      of 15 edits from a valid counter contains a save. */
  lemma {:induction false} AutosaveWithinFifteen(dirtyEdits: int, lastSaveMs: int, times: seq<int>)
    requires 0 <= dirtyEdits < AUTOSAVE_EDITS
    requires |times| >= AUTOSAVE_EDITS - dirtyEdits
    ensures AutosaveRun(dirtyEdits, lastSaveMs, times).save
    decreases |times|
  {
    var a := AutosaveStep(dirtyEdits, lastSaveMs, times[0]);
    if !a.save {
      AutosaveWithinFifteen(a.dirtyEdits, a.lastSaveMs, times[1..]);
    }
  }

  /** The document after the load-once step: the stored snapshot if one was
      found, else what the manager already held. */
  function AfterLoad(d: Doc, stored: Option<DocumentState>): Doc {
    if stored.Some? then Loaded(stored) else d
  }

  // ---------------------------------------------------------------------
  // The room

  class DocumentRoom {
    const docId: string
    const manager: DocumentManager
    const storage: DocumentStorage
    var members: set<Session>
    var loaded: bool
    var lastSaveMs: int
    var dirtyEdits: int

    ghost predicate Valid()
      reads this, manager
    {
      manager.Valid() && 0 <= dirtyEdits < AUTOSAVE_EDITS
    }

    constructor (docId: string, storage: DocumentStorage)
      ensures Valid() && fresh(manager)
      ensures this.docId == docId && this.storage == storage
      ensures members == {} && !loaded && lastSaveMs == 0 && dirtyEdits == 0
      ensures manager.State() == Doc([], map[])
    {
      this.docId := docId;
      this.storage := storage;
      manager := new DocumentManager();
      members := {};
      loaded := false;
      lastSaveMs := 0;
      dirtyEdits := 0;
    }

    /** Reads storage the first time only. */
    method LoadIfNeeded()
      requires Valid()
      modifies this, manager, storage
      ensures Valid() && loaded
      ensures members == old(members) && dirtyEdits == old(dirtyEdits) && lastSaveMs == old(lastSaveMs)
      ensures storage.saveCount == old(storage.saveCount)
      ensures old(loaded) ==> manager.State() == old(manager.State()) && unchanged(storage)
      ensures !old(loaded) ==>
        && storage.loadCount == old(storage.loadCount) + 1
        && manager.State() == AfterLoad(old(manager.State()), old(storage.StoredAfterEnsure(docId)))
        && storage.states == EnsuredStates(old(storage.states), docId)
        && storage.titles == EnsuredTitles(old(storage.titles), docId)
    {
      if loaded {
        return;
      }
      storage.EnsureExists(docId);
      var state := storage.Load(docId);
      if state.Some? {
        manager.LoadState(state);
      }
      loaded := true;
    }

    method Join(h: Session)
      requires Valid()
      modifies this, h
      ensures Valid()
      ensures members == old(members) + {h} && h.currentDocId == Some(docId)
      ensures h.outbox == old(h.outbox)
      ensures loaded == old(loaded) && dirtyEdits == old(dirtyEdits) && lastSaveMs == old(lastSaveMs)
    {
      members := members + {h};
      h.currentDocId := Some(docId);
    }

    method Leave(h: Session)
      requires Valid()
      modifies this
      ensures Valid()
      ensures members == old(members) - {h}
      ensures loaded == old(loaded) && dirtyEdits == old(dirtyEdits) && lastSaveMs == old(lastSaveMs)
    {
      members := members - {h};
    }

    /** Sends `h` the whole document, after loading it if need be. */
    method SendSnapshotTo(h: Session)
      requires Valid()
      modifies this, manager, storage, h
      ensures Valid() && loaded
      ensures members == old(members) && dirtyEdits == old(dirtyEdits) && lastSaveMs == old(lastSaveMs)
      ensures old(loaded) ==> manager.State() == old(manager.State())
      ensures !old(loaded) ==> manager.State() == AfterLoad(old(manager.State()), old(storage.StoredAfterEnsure(docId)))
      ensures storage.saveCount == old(storage.saveCount)
      ensures storage.loadCount == old(storage.loadCount) + (if old(loaded) then 0 else 1)
      ensures storage.states == EnsuredStates(old(storage.states), docId)
      ensures storage.titles == EnsuredTitles(old(storage.titles), docId)
      ensures h.currentDocId == old(h.currentDocId)
      ensures |old(h.outbox)| <= |h.outbox| && h.outbox[..|old(h.outbox)|] == old(h.outbox)
      ensures IsSnapshotFor(h.outbox[|old(h.outbox)|..], docId, storage.TitleFor(docId), manager.State())
    {
      LoadIfNeeded();
      EnsuredFacts(storage.states, storage.titles, docId);
      var text := manager.GetDocument();
      var title := storage.GetTitle(docId);
      var full := FullSyncMessage(docId, title, text);
      h.Send(full);

      var images := manager.BuildFullImageSyncMessages(docId, SERVER);
      for i := 0 to |images|
        modifies h
        invariant h.currentDocId == old(h.currentDocId)
        invariant h.outbox == old(h.outbox) + [full] + images[..i]
      {
        h.Send(images[i]);
      }

      var end := SyncEndMessage(docId);
      h.Send(end);
      assert h.outbox[|old(h.outbox)|..] == [full] + images + [end];
    }

    /** Applies an edit, relays it to every other member, then counts it
        towards autosave. */
    method ApplyAndBroadcast(msg: Message, sender: Session?, now: int)
      requires Valid()
      modifies this, manager, storage, members
      ensures Valid() && loaded && members == old(members)
      ensures manager.State() == Step(
        if old(loaded) then old(manager.State()) else AfterLoad(old(manager.State()), old(storage.StoredAfterEnsure(docId))),
        Some(msg))
      ensures forall h :: h in members ==>
        && h.outbox == old(h.outbox) + (if h == sender then [] else [msg])
        && h.currentDocId == old(h.currentDocId)
      ensures var a := AutosaveStep(old(dirtyEdits), old(lastSaveMs), now);
        && dirtyEdits == a.dirtyEdits && lastSaveMs == a.lastSaveMs
        && storage.saveCount == old(storage.saveCount) + (if a.save then 1 else 0)
        && (a.save ==> docId in storage.states && IsSnapshotOf(storage.states[docId], manager.State()))
        && (a.save ==> storage.states == old(storage.states)[docId := storage.states[docId]])
        && (a.save ==> storage.titles == SavedTitles(old(storage.titles), docId))
        && (!a.save && old(loaded) ==> storage.states == old(storage.states) && storage.titles == old(storage.titles))
        && (!a.save && !old(loaded) ==>
              && storage.states == EnsuredStates(old(storage.states), docId)
              && storage.titles == EnsuredTitles(old(storage.titles), docId))
      ensures storage.loadCount == old(storage.loadCount) + (if old(loaded) then 0 else 1)
    {
      LoadIfNeeded();
      EnsuredFacts(old(storage.states), old(storage.titles), docId);
      manager.Apply(Some(msg));

      var pending := members;
      while pending != {}
        modifies members
        invariant pending <= members
        invariant forall h :: h in members ==>
          && h.outbox == old(h.outbox) + (if h !in pending && h != sender then [msg] else [])
          && h.currentDocId == old(h.currentDocId)
        decreases pending
      {
        var h := Pick(pending);
        if h != sender {
          h.Send(msg);
        }
        pending := pending - {h};
      }

      AutosaveMaybe(now);
    }

    /** Counts one edit; saves when 15 have piled up or 1200 ms have passed. */
    method AutosaveMaybe(now: int)
      requires Valid()
      modifies this, storage
      ensures Valid()
      ensures members == old(members) && loaded == old(loaded)
      ensures var a := AutosaveStep(old(dirtyEdits), old(lastSaveMs), now);
        && dirtyEdits == a.dirtyEdits && lastSaveMs == a.lastSaveMs
        && storage.saveCount == old(storage.saveCount) + (if a.save then 1 else 0)
        && (a.save ==> docId in storage.states && IsSnapshotOf(storage.states[docId], manager.State()))
        && (a.save ==> storage.states == old(storage.states)[docId := storage.states[docId]])
        && (a.save ==> storage.titles == SavedTitles(old(storage.titles), docId))
        && (a.save ==> storage.loadCount == old(storage.loadCount))
        && (!a.save ==> unchanged(storage))
    {
      dirtyEdits := dirtyEdits + 1;
      if dirtyEdits >= AUTOSAVE_EDITS || now - lastSaveMs >= AUTOSAVE_INTERVAL_MS {
        dirtyEdits := 0;
        lastSaveMs := now;
        var st := manager.CreateState();
        storage.Save(docId, st);
      }
    }

    /** Saves unconditionally and resets the autosave counters. */
    method SaveNow(now: int)
      requires Valid()
      modifies this, manager, storage
      ensures Valid() && loaded
      ensures members == old(members)
      ensures dirtyEdits == 0 && lastSaveMs == now
      ensures old(loaded) ==> manager.State() == old(manager.State())
      ensures !old(loaded) ==> manager.State() == AfterLoad(old(manager.State()), old(storage.StoredAfterEnsure(docId)))
      ensures storage.saveCount == old(storage.saveCount) + 1
      ensures storage.loadCount == old(storage.loadCount) + (if old(loaded) then 0 else 1)
      ensures docId in storage.states && IsSnapshotOf(storage.states[docId], manager.State())
      ensures storage.states == old(storage.states)[docId := storage.states[docId]]
      ensures storage.titles == SavedTitles(old(storage.titles), docId)
    {
      LoadIfNeeded();
      EnsuredFacts(old(storage.states), old(storage.titles), docId);
      var st := manager.CreateState();
      storage.Save(docId, st);
      dirtyEdits := 0;
      lastSaveMs := now;
    }
  }
}
