/** The single-document state machine of the legacy server: a text buffer and
    a list of image entries, edited by INSERT, DELETE, FULL_SYNC, IMAGE_INSERT
    and IMAGE_RESIZE. Unlike the room-based server it clamps nothing: an
    offset outside the text makes the text buffer throw, so those inputs are
    preconditions here. */
module LegacyDocuments {
  import opened Common

  /** The placeholder character inserted for an image. */
  const IMAGE_PLACEHOLDER: char := '\U{FFFC}'

  /** One image entry of the list. `blockId` is final in the source; the
      other fields are updated in place (see "Left out" on aliasing). */
  datatype ImageState = ImageState(blockId: int, offset: int, width: int, height: int, data: Option<Bytes>)

  /** The whole manager state: the text and the image list in insertion order. */
  datatype State = State(document: seq<char>, images: seq<ImageState>)

  // ---------------------------------------------------------------------
  // The list rules as functions

  /** shiftImagesOnInsert on one entry. */
  function InsertShift(img: ImageState, offset: int, length: int): ImageState {
    if img.offset >= offset then img.(offset := img.offset + length) else img
  }

  /** shiftImagesOnInsert on the whole list. */
  function ShiftedOnInsert(imgs: seq<ImageState>, offset: int, length: int): (r: seq<ImageState>)
    ensures |r| == |imgs|
    ensures forall i :: 0 <= i < |imgs| ==> r[i] == InsertShift(imgs[i], offset, length)
  {
    seq(|imgs|, i requires 0 <= i < |imgs| => InsertShift(imgs[i], offset, length))
  }

  /** Whether shiftImagesOnDelete removes the entry. */
  predicate Removed(img: ImageState, offset: int, end: int) {
    offset <= img.offset < end
  }

  /** shiftImagesOnDelete on one kept entry. */
  function DeleteShift(img: ImageState, end: int, length: int): ImageState {
    if img.offset >= end then img.(offset := img.offset - length) else img
  }

  /** shiftImagesOnDelete on the list, as the iterator walks it: entries in
      `[offset, end)` dropped, later ones moved back by `length`. */
  function ShiftedOnDelete(imgs: seq<ImageState>, offset: int, length: int): seq<ImageState>
    decreases |imgs|
  {
    if imgs == [] then []
    else
      var n := |imgs| - 1;
      var init := ShiftedOnDelete(imgs[..n], offset, length);
      if Removed(imgs[n], offset, offset + length) then init
      else init + [DeleteShift(imgs[n], offset + length, length)]
  }

  /** IMAGE_RESIZE's loop: the first entry with `blockId` takes the new size,
      whatever it is; the rest of the list is untouched. */
  function ResizedFirst(imgs: seq<ImageState>, blockId: int, width: int, height: int): seq<ImageState>
    decreases |imgs|
  {
    if imgs == [] then []
    else if imgs[0].blockId == blockId then [imgs[0].(width := width, height := height)] + imgs[1..]
    else [imgs[0]] + ResizedFirst(imgs[1..], blockId, width, height)
  }

  /** The conditions under which `apply` returns normally rather than
      throwing: a mode is present, and the offsets handed to the text buffer
      lie inside the text (DELETE's end must not fall before its start, and
      `offset + length` must not leave the 32-bit range). */
  predicate Applicable(st: State, m: Message) {
    && m.mode.Some?
    && (m.mode.value == Insert && m.text.Some? ==> 0 <= m.offset <= |st.document|)
    && (m.mode.value == Delete ==>
          0 <= m.offset <= |st.document| && 0 <= m.length && m.offset + m.length <= INT_MAX)
    && (m.mode.value == ImageInsert ==> 0 <= m.offset <= |st.document|)
  }

  /** The whole state machine on states. */
  function Step(st: State, m: Message): State
    requires Applicable(st, m)
  {
    match m.mode.value
    case Insert =>
      if m.text.None? then st
      else State(st.document[..m.offset] + m.text.value + st.document[m.offset..],
                 ShiftedOnInsert(st.images, m.offset, |m.text.value|))
    case Delete =>
      var end := if m.offset + m.length <= |st.document| then m.offset + m.length else |st.document|;
      State(st.document[..m.offset] + st.document[end..], ShiftedOnDelete(st.images, m.offset, m.length))
    case FullSync =>
      State(m.text.GetOr([]), [])
    case ImageInsert =>
      State(st.document[..m.offset] + [IMAGE_PLACEHOLDER] + st.document[m.offset..],
            ShiftedOnInsert(st.images, m.offset, 1) + [ImageState(m.blockId, m.offset, m.width, m.height, m.payload)])
    case ImageResize =>
      State(st.document, ResizedFirst(st.images, m.blockId, m.width, m.height))
    case _ => st
  }

  // ---------------------------------------------------------------------
  // What each operation promises

  /** A message whose mode is none of the five handled changes nothing. */
  lemma OtherModesIgnored(st: State, m: Message)
    requires Applicable(st, m)
    requires m.mode.value !in {Insert, Delete, FullSync, ImageInsert, ImageResize}
    ensures Step(st, m) == st
  {
  }

  /** INSERT puts the text at exactly `offset` and moves only the images at or
      after it, by the inserted length; null text is a no-op. */
  lemma InsertEffect(st: State, m: Message)
    requires Applicable(st, m) && m.mode == Some(Insert)
    ensures m.text.None? ==> Step(st, m) == st
    ensures m.text.Some? ==>
      var r := Step(st, m);
      && |r.document| == |st.document| + |m.text.value|
      && r.document[..m.offset] == st.document[..m.offset]
      && r.document[m.offset..m.offset + |m.text.value|] == m.text.value
      && r.document[m.offset + |m.text.value|..] == st.document[m.offset..]
      && |r.images| == |st.images|
      && (forall i :: 0 <= i < |st.images| ==>
            r.images[i] == if st.images[i].offset >= m.offset
                           then st.images[i].(offset := st.images[i].offset + |m.text.value|)
                           else st.images[i])
  {
    if m.text.Some? {
      var r := Step(st, m);
      assert r.document == (st.document[..m.offset] + m.text.value) + st.document[m.offset..];
    }
  }

  /** An entry survives DELETE exactly when it lay outside `[offset, end)`, and
      a survivor moves back by `length` exactly when it lay at or after `end`. */
  lemma {:induction false} ShiftedOnDeleteMembers(imgs: seq<ImageState>, offset: int, length: int, x: ImageState)
    ensures x in ShiftedOnDelete(imgs, offset, length) <==>
      exists i :: 0 <= i < |imgs| && !Removed(imgs[i], offset, offset + length)
                  && x == DeleteShift(imgs[i], offset + length, length)
    decreases |imgs|
  {
    if imgs != [] {
      var n := |imgs| - 1;
      var init := imgs[..n];
      ShiftedOnDeleteMembers(init, offset, length, x);
      assert forall i :: 0 <= i < n ==> init[i] == imgs[i];
      if x in ShiftedOnDelete(imgs, offset, length) && x !in ShiftedOnDelete(init, offset, length) {
        assert x == DeleteShift(imgs[n], offset + length, length);
      }
    }
  }

  /** DELETE never adds entries. */
  lemma {:induction false} ShiftedOnDeleteShrinks(imgs: seq<ImageState>, offset: int, length: int)
    ensures |ShiftedOnDelete(imgs, offset, length)| <= |imgs|
    decreases |imgs|
  {
    if imgs != [] {
      ShiftedOnDeleteShrinks(imgs[..|imgs| - 1], offset, length);
    }
  }

  /** Every entry left after DELETE comes from one that lay outside the
      deleted range, moved back by `length` when it lay at or after the
      range's end and unmoved otherwise. */
  lemma ShiftedOnDeleteOrigins(imgs: seq<ImageState>, offset: int, length: int)
    requires length >= 0
    ensures forall x :: x in ShiftedOnDelete(imgs, offset, length) ==>
      exists i :: 0 <= i < |imgs| && (imgs[i].offset < offset || imgs[i].offset >= offset + length)
                  && x.offset == (if imgs[i].offset >= offset + length then imgs[i].offset - length else imgs[i].offset)
  {
    forall x | x in ShiftedOnDelete(imgs, offset, length)
      ensures exists i :: 0 <= i < |imgs| && (imgs[i].offset < offset || imgs[i].offset >= offset + length)
                  && x.offset == (if imgs[i].offset >= offset + length then imgs[i].offset - length else imgs[i].offset)
    {
      ShiftedOnDeleteMembers(imgs, offset, length, x);
      var i :| 0 <= i < |imgs| && !Removed(imgs[i], offset, offset + length)
               && x == DeleteShift(imgs[i], offset + length, length);
    }
  }

  /** DELETE removes `[offset, min(offset + length, |text|))` from the text. */
  lemma DeleteText(st: State, m: Message)
    requires Applicable(st, m) && m.mode == Some(Delete)
    ensures var end := if m.offset + m.length <= |st.document| then m.offset + m.length else |st.document|;
      && Step(st, m).document == st.document[..m.offset] + st.document[end..]
      && |Step(st, m).document| == |st.document| - (end - m.offset)
  {
  }

  /** FULL_SYNC replaces the text and empties the image list. */
  lemma FullSyncEffect(st: State, m: Message)
    requires Applicable(st, m) && m.mode == Some(FullSync)
    ensures Step(st, m).images == []
    ensures m.text.Some? ==> Step(st, m).document == m.text.value
    ensures m.text.None? ==> Step(st, m).document == []
  {
  }

  /** IMAGE_INSERT adds one placeholder at `offset`, moves the earlier entries
      at or after it by one, and appends the new entry unfiltered. */
  lemma ImageInsertEffect(st: State, m: Message)
    requires Applicable(st, m) && m.mode == Some(ImageInsert)
    ensures var r := Step(st, m);
      && |r.document| == |st.document| + 1
      && r.document[m.offset] == IMAGE_PLACEHOLDER
      && r.document[..m.offset] == st.document[..m.offset]
      && r.document[m.offset + 1..] == st.document[m.offset..]
      && |r.images| == |st.images| + 1
      && r.images[..|st.images|] == ShiftedOnInsert(st.images, m.offset, 1)
      && r.images[|st.images|] == ImageState(m.blockId, m.offset, m.width, m.height, m.payload)
  {
    var r := Step(st, m);
    assert r.document == (st.document[..m.offset] + [IMAGE_PLACEHOLDER]) + st.document[m.offset..];
  }

  /** IMAGE_RESIZE changes only the first entry carrying `blockId`, and only
      its size; with no such entry it changes nothing. */
  lemma {:induction false} ResizedFirstEffect(imgs: seq<ImageState>, blockId: int, width: int, height: int)
    ensures var r := ResizedFirst(imgs, blockId, width, height);
      && |r| == |imgs|
      && (forall i :: 0 <= i < |imgs| ==> r[i].blockId == imgs[i].blockId && r[i].offset == imgs[i].offset && r[i].data == imgs[i].data)
      && (forall i :: 0 <= i < |imgs| && (forall j :: 0 <= j < i ==> imgs[j].blockId != blockId) && imgs[i].blockId == blockId ==>
            r[i] == imgs[i].(width := width, height := height))
      && (forall i :: 0 <= i < |imgs| && (exists j :: 0 <= j < i && imgs[j].blockId == blockId) ==> r[i] == imgs[i])
      && (forall i :: 0 <= i < |imgs| && imgs[i].blockId != blockId ==> r[i] == imgs[i])
    decreases |imgs|
  {
    if imgs != [] && imgs[0].blockId != blockId {
      var tail := imgs[1..];
      ResizedFirstEffect(tail, blockId, width, height);
      var r := ResizedFirst(imgs, blockId, width, height);
      assert forall i :: 1 <= i < |imgs| ==> r[i] == ResizedFirst(tail, blockId, width, height)[i - 1] && imgs[i] == tail[i - 1];
    }
  }

  // ---------------------------------------------------------------------
  // The manager as the legacy server runs it

  class DocumentManager {
    var document: seq<char>
    var images: seq<ImageState>

    function Current(): State
      reads this
    {
      State(document, images)
    }

    constructor ()
      ensures Current() == State([], [])
    {
      document := [];
      images := [];
    }

    method Apply(msg: Message)
      requires Applicable(Current(), msg)
      modifies this
      ensures Current() == Step(old(Current()), msg)
    {
      match msg.mode.value
      case Insert =>
        if msg.text.None? {
          return;
        }
        document := document[..msg.offset] + msg.text.value + document[msg.offset..];
        ShiftImagesOnInsert(msg.offset, |msg.text.value|);
      case Delete =>
        var end := if msg.offset + msg.length <= |document| then msg.offset + msg.length else |document|;
        document := document[..msg.offset] + document[end..];
        ShiftImagesOnDelete(msg.offset, msg.length);
      case FullSync =>
        document := [];
        if msg.text.Some? {
          document := document + msg.text.value;
        }
        images := [];
      case ImageInsert =>
        document := document[..msg.offset] + [IMAGE_PLACEHOLDER] + document[msg.offset..];
        ShiftImagesOnInsert(msg.offset, 1);
        images := images + [ImageState(msg.blockId, msg.offset, msg.width, msg.height, msg.payload)];
      case ImageResize =>
        ResizeFirstMatch(msg.blockId, msg.width, msg.height);
      case _ =>
    }

    method GetDocument() returns (s: string)
      ensures s == document
    {
      s := document;
    }

    /** A new list holding the same entries in the same order. */
    method GetImages() returns (r: seq<ImageState>)
      ensures |r| == |images| && forall i :: 0 <= i < |r| ==> r[i] == images[i]
    {
      r := [];
      var i := 0;
      while i < |images|
        invariant 0 <= i <= |images|
        invariant r == images[..i]
      {
        r := r + [images[i]];
        i := i + 1;
      }
    }

    method ShiftImagesOnInsert(offset: int, length: int)
      modifies this
      ensures document == old(document)
      ensures images == ShiftedOnInsert(old(images), offset, length)
    {
      var shifted := images;
      var i := 0;
      while i < |shifted|
        invariant 0 <= i <= |shifted| == |images|
        invariant forall j :: 0 <= j < |images| ==>
          shifted[j] == if j < i then InsertShift(images[j], offset, length) else images[j]
      {
        if shifted[i].offset >= offset {
          shifted := shifted[i := shifted[i].(offset := shifted[i].offset + length)];
        }
        i := i + 1;
      }
      images := shifted;
    }

    method ShiftImagesOnDelete(offset: int, length: int)
      modifies this
      ensures document == old(document)
      ensures images == ShiftedOnDelete(old(images), offset, length)
    {
      var end := offset + length;
      var kept := [];
      var i := 0;
      while i < |images|
        invariant 0 <= i <= |images|
        invariant kept == ShiftedOnDelete(images[..i], offset, length)
      {
        var img := images[i];
        assert images[..i + 1][..i] == images[..i];
        if img.offset >= offset && img.offset < end {
          // dropped, as the iterator's remove does
        } else if img.offset >= end {
          kept := kept + [img.(offset := img.offset - length)];
        } else {
          kept := kept + [img];
        }
        i := i + 1;
      }
      assert images[..i] == images;
      images := kept;
    }

    /** IMAGE_RESIZE: the loop stops at the first entry with `blockId`. */
    method ResizeFirstMatch(blockId: int, width: int, height: int)
      modifies this
      ensures document == old(document)
      ensures images == ResizedFirst(old(images), blockId, width, height)
    {
      ResizedFirstEffect(images, blockId, width, height);
      var i := 0;
      while i < |images|
        invariant 0 <= i <= |images|
        invariant forall j :: 0 <= j < i ==> images[j].blockId != blockId
      {
        if images[i].blockId == blockId {
          ghost var r := ResizedFirst(images, blockId, width, height);
          images := images[i := images[i].(width := width, height := height)];
          assert images == r;
          return;
        }
        i := i + 1;
      }
      assert ResizedFirst(images, blockId, width, height) == images;
    }
  }
}
