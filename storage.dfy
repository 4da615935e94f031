/** Document storage seen from the rooms: per document id a stored snapshot
    and a title. The files, directories and serialisation behind it are
    replaced by two maps. */
module Storage {
  import opened Common
  import opened ImageBlocks

  const UNTITLED: string := "Untitled"

  /** Java's `Character.isWhitespace`: the control characters U+0009 to
      U+000D and U+001C to U+001F, and the space, line and paragraph
      separators other than the no-break spaces U+00A0, U+2007 and U+202F. */
  predicate Whitespace(c: char) {
    || '\U{0009}' <= c <= '\U{000D}'
    || '\U{001C}' <= c <= '\U{0020}'
    || c == '\U{1680}'
    || '\U{2000}' <= c <= '\U{2006}'
    || '\U{2008}' <= c <= '\U{200A}'
    || c == '\U{2028}' || c == '\U{2029}' || c == '\U{205F}' || c == '\U{3000}'
  }

  /** Java's `isBlank`: empty, or whitespace only. */
  predicate Blank(s: string) {
    forall i :: 0 <= i < |s| ==> Whitespace(s[i])
  }

  /** The snapshot written for a new document: empty text, no images. */
  const EMPTY_STATE: DocumentState := DocumentState(Some([]), Some([]))

  /** The snapshots once `ensureExists(docId)` has run: a non-blank id
      without one gets the empty snapshot. */
  function EnsuredStates(states: map<string, DocumentState>, docId: string): map<string, DocumentState> {
    if Blank(docId) || docId in states then states else states[docId := EMPTY_STATE]
  }

  /** The titles once `ensureExists(docId)` has run: a non-blank id without
      one gets "Untitled". */
  function EnsuredTitles(titles: map<string, string>, docId: string): map<string, string> {
    if Blank(docId) || docId in titles then titles else titles[docId := UNTITLED]
  }

  /** The titles once `save(docId, _)` has run: a non-blank id keeps a
      non-blank title; otherwise the id's title becomes "Untitled" (a blank
      id has no metadata to read, so a fresh record is written). */
  function SavedTitles(titles: map<string, string>, docId: string): map<string, string> {
    titles[docId := if !Blank(docId) && docId in titles && !Blank(titles[docId]) then titles[docId] else UNTITLED]
  }

  /** Making a document exist touches no other document, keeps what it
      already had, gives a non-blank id a snapshot and a title, and a second
      time changes nothing. */
  lemma EnsuredFacts(states: map<string, DocumentState>, titles: map<string, string>, docId: string)
    ensures forall d :: d != docId ==> (d in EnsuredStates(states, docId) <==> d in states)
    ensures forall d :: d in states ==> d in EnsuredStates(states, docId) && EnsuredStates(states, docId)[d] == states[d]
    ensures forall d :: d != docId ==> (d in EnsuredTitles(titles, docId) <==> d in titles)
    ensures forall d :: d in titles ==> d in EnsuredTitles(titles, docId) && EnsuredTitles(titles, docId)[d] == titles[d]
    ensures !Blank(docId) ==> docId in EnsuredStates(states, docId) && docId in EnsuredTitles(titles, docId)
    ensures EnsuredStates(EnsuredStates(states, docId), docId) == EnsuredStates(states, docId)
    ensures EnsuredTitles(EnsuredTitles(titles, docId), docId) == EnsuredTitles(titles, docId)
    ensures SavedTitles(EnsuredTitles(titles, docId), docId) == SavedTitles(titles, docId)
  {
  }

  class DocumentStorage {
    /** The snapshot file of each document that has one. */
    var states: map<string, DocumentState>
    /** The title recorded in each document's metadata file. */
    var titles: map<string, string>
    /** How many snapshots were written and read so far. */
    ghost var saveCount: nat
    ghost var loadCount: nat

    constructor ()
      ensures states == map[] && titles == map[] && saveCount == 0 && loadCount == 0
    {
      states := map[];
      titles := map[];
      saveCount := 0;
      loadCount := 0;
    }

    /** The snapshot stored for `docId`, if any. */
    function Stored(docId: string): (r: Option<DocumentState>)
      reads this
      ensures r.Some? <==> docId in states
      ensures r.Some? ==> r.value == states[docId]
    {
      if docId in states then Some(states[docId]) else None
    }

    /** What loading `docId` finds once EnsureExists has run: the stored
        snapshot, an empty one for a new non-blank id, nothing for a blank id
        never stored. */
    function StoredAfterEnsure(docId: string): (r: Option<DocumentState>)
      reads this
      ensures docId in states ==> r == Some(states[docId])
      ensures docId !in states ==> (r.None? <==> Blank(docId))
      ensures docId !in states && r.Some? ==> r.value == EMPTY_STATE
    {
      if docId in states then Some(states[docId])
      else if Blank(docId) then None
      else Some(EMPTY_STATE)
    }

    /** The title GetTitle reports once the document exists. */
    function TitleFor(docId: string): (t: string)
      reads this
      ensures !Blank(t)
      ensures !Blank(docId) && docId in titles && !Blank(titles[docId]) ==> t == titles[docId]
    {
      assert UNTITLED[0] == 'U';
      if !Blank(docId) && docId in titles && !Blank(titles[docId]) then titles[docId] else UNTITLED
    }

    /** A non-blank document id gets an empty snapshot and the title
        "Untitled" where it has none; what exists is kept. */
    method EnsureExists(docId: string)
      modifies this
      ensures saveCount == old(saveCount) && loadCount == old(loadCount)
      ensures states == EnsuredStates(old(states), docId)
      ensures titles == EnsuredTitles(old(titles), docId)
    {
      if Blank(docId) {
        return;
      }
      if docId !in states {
        states := states[docId := EMPTY_STATE];
      }
      if docId !in titles {
        titles := titles[docId := UNTITLED];
      }
    }

    /** The stored snapshot, after making sure the document exists. */
    method Load(docId: string) returns (st: Option<DocumentState>)
      modifies this
      ensures saveCount == old(saveCount) && loadCount == old(loadCount) + 1
      ensures states == EnsuredStates(old(states), docId)
      ensures titles == EnsuredTitles(old(titles), docId)
      ensures st == old(StoredAfterEnsure(docId))
      ensures st == Stored(docId)
    {
      EnsureExists(docId);
      st := Stored(docId);
      loadCount := loadCount + 1;
    }

    /** Writes the snapshot, even under a blank id, and keeps a non-blank
        title ("Untitled" otherwise). */
    method Save(docId: string, state: DocumentState)
      modifies this
      ensures saveCount == old(saveCount) + 1 && loadCount == old(loadCount)
      ensures states == old(states)[docId := state]
      ensures titles == SavedTitles(old(titles), docId)
    {
      EnsureExists(docId);
      states := states[docId := state];
      var title := if !Blank(docId) && docId in titles then titles[docId] else UNTITLED;
      if Blank(title) {
        title := UNTITLED;
      }
      titles := titles[docId := title];
      saveCount := saveCount + 1;
    }

    /** The document's title, "Untitled" when it has none or a blank one. */
    method GetTitle(docId: string) returns (title: string)
      modifies this
      ensures saveCount == old(saveCount) && loadCount == old(loadCount)
      ensures title == TitleFor(docId)
      ensures states == EnsuredStates(old(states), docId)
      ensures titles == EnsuredTitles(old(titles), docId)
    {
      if Blank(docId) {
        return UNTITLED;
      }
      EnsureExists(docId);
      title := titles[docId];
      if Blank(title) {
        title := UNTITLED;
      }
    }

    /** Removes a stored document; false for a blank id or one never stored. */
    method Delete(docId: Option<string>) returns (ok: bool)
      modifies this
      ensures saveCount == old(saveCount) && loadCount == old(loadCount)
      ensures ok <==> docId.Some? && !Blank(docId.value) && (docId.value in old(states) || docId.value in old(titles))
      ensures ok ==> states == old(states) - {docId.value} && titles == old(titles) - {docId.value}
      ensures !ok ==> states == old(states) && titles == old(titles)
    {
      if docId.None? || Blank(docId.value) {
        return false;
      }
      var d := docId.value;
      if d !in states && d !in titles {
        return false;
      }
      states := states - {d};
      titles := titles - {d};
      ok := true;
    }
  }
}
