/** The server's authoritative state for one document: a text buffer in which
    every embedded image occupies one placeholder character, and the image
    blocks keyed by id. Every offset a message carries is clamped into the
    text before use, so no message can make an operation fail.

    The module first gives each operation as a function on a `Doc` value,
    states what each one promises as lemmas, and then gives the class whose
    methods change the buffer and the map in place and are proved to follow
    those functions. */
module Documents {
  import opened Common
  import opened ImageBlocks
  import opened Offsets

  /** The character standing for an embedded image in the text. */
  const PLACEHOLDER: char := '\U{FFFC}'

  /** Width or height of a new block: positive values kept, others -1. */
  function DimensionOrUnset(v: int): int {
    if v > 0 then v else -1
  }

  /** The abstract state of a document: its text and its image map. */
  datatype Doc = Doc(text: seq<char>, images: map<int, ImageBlock>)

  /** Each image is stored under its own id. */
  predicate WellKeyed(m: map<int, ImageBlock>) {
    forall k :: k in m ==> m[k].id == k
  }

  // ---------------------------------------------------------------------
  // The operations as functions on Doc

  function InsertStep(d: Doc, text: Option<string>, offset: int): Doc {
    if text.None? || text.value == [] then d
    else
      var c := ClampOffset(offset, |d.text|);
      Doc(InsertAt(d.text, c, text.value), ShiftFrom(d.images, c, |text.value|))
  }

  /** DELETE's range: both ends clamped; the end is `offset + length` computed
      in 32-bit arithmetic, so it wraps for very large lengths. */
  function DeleteStart(d: Doc, offset: int): nat {
    ClampOffset(offset, |d.text|)
  }

  function DeleteEnd(d: Doc, offset: int, length: int): nat {
    ClampOffset(Wrap32(offset + length), |d.text|)
  }

  function DeleteStep(d: Doc, offset: int, length: int): Doc {
    var s := DeleteStart(d, offset);
    var e := DeleteEnd(d, offset, length);
    if s >= e then d
    else Doc(d.text[..s] + d.text[e..], CutRange(d.images, s, e))
  }

  function FullSyncStep(d: Doc, text: Option<string>): Doc {
    Doc(text.GetOr([]), d.images)
  }

  function ImageInsertStep(d: Doc, blockId: int, offset: int, width: int, height: int, payload: Option<Bytes>): Doc {
    if payload.None? then d
    else
      var c := ClampOffset(offset, |d.text|);
      var block := ImageBlock(blockId, c, DimensionOrUnset(width), DimensionOrUnset(height), payload);
      Doc(InsertAt(d.text, c, [PLACEHOLDER]), ShiftFrom(d.images, c, 1)[blockId := block])
  }

  function ImageResizeStep(d: Doc, blockId: int, width: int, height: int): Doc {
    if blockId !in d.images then d
    else
      var b := d.images[blockId];
      var w := if width > 0 then width else b.width;
      var h := if height > 0 then height else b.height;
      Doc(d.text, d.images[blockId := b.(width := w, height := h)])
  }

  /** IMAGE_MOVE: the clamped current and requested offsets. */
  function MoveSource(d: Doc, blockId: int): nat
    requires blockId in d.images
  {
    ClampOffset(d.images[blockId].offset, |d.text|)
  }

  /** The text once the placeholder at the current position, if there is one,
      has been taken out. */
  function MoveLifted(d: Doc, blockId: int): seq<char>
    requires blockId in d.images
  {
    var o := MoveSource(d, blockId);
    if o < |d.text| && d.text[o] == PLACEHOLDER then d.text[..o] + d.text[o + 1..] else d.text
  }

  /** Where the block lands: the requested offset, one less when it lay after
      the current position, clamped into the lifted text. */
  function MoveTarget(d: Doc, blockId: int, newOffset: int): nat
    requires blockId in d.images
  {
    var o := MoveSource(d, blockId);
    var n := ClampOffset(newOffset, |d.text|);
    ClampOffset(if n > o then n - 1 else n, |MoveLifted(d, blockId)|)
  }

  function ImageMoveStep(d: Doc, blockId: int, newOffset: int): Doc {
    if blockId !in d.images then d
    else if MoveSource(d, blockId) == ClampOffset(newOffset, |d.text|) then d
    else
      var b := d.images[blockId];
      var o := MoveSource(d, blockId);
      var t := MoveTarget(d, blockId, newOffset);
      var lifted := ShiftExcept(d.images, b.id, o + 1, -1);
      var placed := ShiftExcept(lifted, b.id, t, 1);
      Doc(InsertAt(MoveLifted(d, blockId), t, [PLACEHOLDER]), placed[blockId := b.(offset := t)])
  }

  predicate Handled(mode: Mode) {
    mode in {Insert, Delete, FullSync, ImageInsert, ImageResize, ImageMove}
  }

  /** The whole state machine: one message applied to one document. */
  function Step(d: Doc, msg: Option<Message>): Doc {
    if msg.None? || msg.value.mode.None? then d
    else
      var m := msg.value;
      match m.mode.value
      case Insert => InsertStep(d, m.text, m.offset)
      case Delete => DeleteStep(d, m.offset, m.length)
      case FullSync => FullSyncStep(d, m.text)
      case ImageInsert => ImageInsertStep(d, m.blockId, m.offset, m.width, m.height, m.payload)
      case ImageResize => ImageResizeStep(d, m.blockId, m.width, m.height)
      case ImageMove => ImageMoveStep(d, m.blockId, m.newOffset)
      case _ => d
  }

  // ---------------------------------------------------------------------
  // Snapshots

  /** The image map rebuilt from stored states, later entries overwriting
      earlier ones with the same id. */
  function BlocksOf(states: seq<ImageState>): map<int, ImageBlock>
    decreases |states|
  {
    if states == [] then map[]
    else BlocksOf(states[..|states| - 1])[states[|states| - 1].id := FromState(states[|states| - 1])]
  }

  /** The document after loading a stored state; a null state or a null field
      loads as empty. */
  function Loaded(state: Option<DocumentState>): Doc {
    match state
    case None => Doc([], map[])
    case Some(st) => Doc(st.text.GetOr([]), if st.images.Some? then BlocksOf(st.images.value) else map[])
  }

  /** `states` lists every block of `m` exactly once, in some order. */
  predicate ListsImages(states: seq<ImageState>, m: map<int, ImageBlock>) {
    && (forall i :: 0 <= i < |states| ==> states[i].id in m && states[i] == ToState(m[states[i].id]))
    && (forall i, j :: 0 <= i < j < |states| ==> states[i].id != states[j].id)
    && (forall k :: k in m ==> exists i :: 0 <= i < |states| && states[i].id == k)
  }

  predicate IsSnapshotOf(st: DocumentState, d: Doc) {
    st.text == Some(d.text) && st.images.Some? && ListsImages(st.images.value, d.images)
  }

  /** The IMAGE_INSERT message announcing block `b` to a client. */
  function ImageSyncMessage(docId: string, userId: string, b: ImageBlock): Message {
    NewMessage(ImageInsert, userId, None).(docId := Some(docId), blockId := b.id, offset := b.offset,
                                           length := 1, payload := b.data, width := b.width, height := b.height)
  }

  /** `msgs` announces every block of `m` exactly once, in some order. */
  predicate ListsSyncMessages(msgs: seq<Message>, m: map<int, ImageBlock>, docId: string, userId: string) {
    && (forall i :: 0 <= i < |msgs| ==> msgs[i].blockId in m && msgs[i] == ImageSyncMessage(docId, userId, m[msgs[i].blockId]))
    && (forall i, j :: 0 <= i < j < |msgs| ==> msgs[i].blockId != msgs[j].blockId)
    && (forall k :: k in m ==> exists i :: 0 <= i < |msgs| && msgs[i].blockId == k)
  }

  // ---------------------------------------------------------------------
  // What the operations promise

  /** A null message, a message without a mode, or a mode other than the six
      document edits leaves the document as it is. */
  lemma ApplyIgnoresUnhandled(d: Doc, msg: Option<Message>)
    requires msg.None? || msg.value.mode.None? || !Handled(msg.value.mode.value)
    ensures Step(d, msg) == d
  {
  }

  /** INSERT puts the text at the clamped offset and moves the images at or
      after it by the text's length; null or empty text changes nothing. */
  lemma InsertEffect(d: Doc, text: Option<string>, offset: int)
    ensures text.None? || text.value == [] ==> InsertStep(d, text, offset) == d
    ensures text.Some? && text.value != [] ==>
      var c := ClampOffset(offset, |d.text|);
      var r := InsertStep(d, text, offset);
      && r.text == d.text[..c] + text.value + d.text[c..]
      && |r.text| == |d.text| + |text.value|
      && r.images.Keys == d.images.Keys
      && forall k :: k in d.images ==>
           r.images[k] == if d.images[k].offset >= c then d.images[k].(offset := d.images[k].offset + |text.value|) else d.images[k]
  {
  }

  /** DELETE removes the clamped range `[s, e)` from the text, drops the images
      inside it, moves those at or after `e` back by `e - s` and leaves the
      ones before `s` alone; an empty or inverted range changes nothing. */
  lemma DeleteEffect(d: Doc, offset: int, length: int)
    ensures
      var s := DeleteStart(d, offset);
      var e := DeleteEnd(d, offset, length);
      var r := DeleteStep(d, offset, length);
      && (s >= e ==> r == d)
      && (s < e ==>
           && r.text == d.text[..s] + d.text[e..]
           && |r.text| == |d.text| - (e - s)
           && (forall k :: k in r.images <==> k in d.images && !(s <= d.images[k].offset < e))
           && (forall k :: k in r.images ==>
                r.images[k] == if d.images[k].offset >= e then d.images[k].(offset := d.images[k].offset - (e - s)) else d.images[k]))
  {
  }

  /** When `offset + length` fits in an `int`, DELETE's end is that sum clamped. */
  lemma DeleteEndWithoutOverflow(d: Doc, offset: int, length: int)
    requires INT_MIN <= offset + length <= INT_MAX
    ensures DeleteEnd(d, offset, length) == ClampOffset(offset + length, |d.text|)
  {
  }

  /** A DELETE whose `offset + length` overflows upward wraps to a negative
      end and deletes nothing, however far past the text the range reaches. */
  lemma DeleteOverflowIsNoOp(d: Doc, offset: int, length: int)
    requires INT_MIN <= offset <= INT_MAX && INT_MIN <= length <= INT_MAX
    requires offset + length > INT_MAX
    ensures DeleteStep(d, offset, length) == d
  {
  }

  /** A DELETE whose `offset + length` overflows downward wraps to a
      non-negative end: the range then starts at 0 and the text up to the
      wrapped end is deleted. */
  lemma DeleteUnderflowWrapsForward(d: Doc, offset: int, length: int)
    requires INT_MIN <= offset <= INT_MAX && INT_MIN <= length <= INT_MAX
    requires offset + length < INT_MIN
    ensures DeleteStart(d, offset) == 0
    ensures DeleteEnd(d, offset, length) == ClampOffset(offset + length + 0x1_0000_0000, |d.text|)
    ensures DeleteStep(d, offset, length).text == d.text[DeleteEnd(d, offset, length)..]
  {
  }

  /** In particular offset `Integer.MIN_VALUE` with length -1 wraps the end
      to `Integer.MAX_VALUE` and erases the whole text. */
  lemma DeleteUnderflowErasesAll(d: Doc)
    requires |d.text| <= INT_MAX
    ensures DeleteStep(d, INT_MIN, -1).text == []
  {
    DeleteUnderflowWrapsForward(d, INT_MIN, -1);
  }

  /** FULL_SYNC replaces the text (null means empty) and keeps every image. */
  lemma FullSyncEffect(d: Doc, text: Option<string>)
    ensures FullSyncStep(d, text).text == (if text.Some? then text.value else [])
    ensures FullSyncStep(d, text).images == d.images
  {
  }

  /** IMAGE_INSERT adds one placeholder at the clamped offset, moves the images
      at or after it by one, and stores the new block there, unset sizes as -1;
      a null payload changes nothing. */
  lemma ImageInsertEffect(d: Doc, blockId: int, offset: int, width: int, height: int, payload: Option<Bytes>)
    ensures payload.None? ==> ImageInsertStep(d, blockId, offset, width, height, payload) == d
    ensures payload.Some? ==>
      var c := ClampOffset(offset, |d.text|);
      var r := ImageInsertStep(d, blockId, offset, width, height, payload);
      && |r.text| == |d.text| + 1
      && r.text[c] == PLACEHOLDER
      && r.text[..c] == d.text[..c]
      && r.text[c + 1..] == d.text[c..]
      && r.images.Keys == d.images.Keys + {blockId}
      && r.images[blockId] == ImageBlock(blockId, c, if width > 0 then width else -1, if height > 0 then height else -1, payload)
      && forall k :: k in d.images && k != blockId ==> r.images[k] == ShiftOne(d.images[k], c, 1)
  {
    if payload.Some? {
      InsertAtFacts(d.text, ClampOffset(offset, |d.text|), [PLACEHOLDER]);
    }
  }

  /** IMAGE_RESIZE of an unknown block changes nothing; otherwise only the
      positive dimensions are written and nothing else moves. */
  lemma ImageResizeEffect(d: Doc, blockId: int, width: int, height: int)
    ensures blockId !in d.images ==> ImageResizeStep(d, blockId, width, height) == d
    ensures blockId in d.images ==>
      var b := d.images[blockId];
      var r := ImageResizeStep(d, blockId, width, height);
      && r.text == d.text
      && r.images.Keys == d.images.Keys
      && r.images[blockId] == ImageBlock(b.id, b.offset, if width > 0 then width else b.width, if height > 0 then height else b.height, b.data)
      && forall k :: k in d.images && k != blockId ==> r.images[k] == d.images[k]
  {
  }

  /** IMAGE_MOVE of an unknown block, or to the offset it already has, changes
      nothing. Otherwise it keeps the set of images, keeps the text length when
      a placeholder stood at the old position (one more character when none
      did), leaves a placeholder under the block's new offset, and changes
      nothing of the moved block but its offset. */
  lemma ImageMoveEffect(d: Doc, blockId: int, newOffset: int)
    ensures blockId !in d.images ==> ImageMoveStep(d, blockId, newOffset) == d
    ensures blockId in d.images && MoveSource(d, blockId) == ClampOffset(newOffset, |d.text|) ==>
      ImageMoveStep(d, blockId, newOffset) == d
    ensures ImageMoveStep(d, blockId, newOffset).images.Keys == d.images.Keys
    ensures blockId in d.images && MoveSource(d, blockId) != ClampOffset(newOffset, |d.text|) ==>
      var o := MoveSource(d, blockId);
      var t := MoveTarget(d, blockId, newOffset);
      var r := ImageMoveStep(d, blockId, newOffset);
      && |r.text| == (if o < |d.text| && d.text[o] == PLACEHOLDER then |d.text| else |d.text| + 1)
      && r.images[blockId] == d.images[blockId].(offset := t)
      && t < |r.text| && r.text[t] == PLACEHOLDER
  {
    if blockId in d.images && MoveSource(d, blockId) != ClampOffset(newOffset, |d.text|) {
      InsertAtFacts(MoveLifted(d, blockId), MoveTarget(d, blockId, newOffset), [PLACEHOLDER]);
    }
  }

  /** IMAGE_MOVE keeps the order of every other pair of images, and changes
      nothing of them but their offsets. */
  lemma ImageMoveKeepsOthers(d: Doc, blockId: int, newOffset: int, k1: int, k2: int)
    requires blockId in d.images && k1 in d.images && k2 in d.images
    requires d.images[k1].id != d.images[blockId].id && d.images[k2].id != d.images[blockId].id
    requires d.images[k1].offset <= d.images[k2].offset
    ensures
      var r := ImageMoveStep(d, blockId, newOffset);
      && r.images[k1].offset <= r.images[k2].offset
      && r.images[k1] == d.images[k1].(offset := r.images[k1].offset)
  {
    var b := d.images[blockId];
    if MoveSource(d, blockId) != ClampOffset(newOffset, |d.text|) {
      var o := MoveSource(d, blockId);
      var t := MoveTarget(d, blockId, newOffset);
      var lifted := ShiftExcept(d.images, b.id, o + 1, -1);
      assert lifted[k1].offset <= lifted[k2].offset;
      ShiftOneMonotone(lifted[k1], lifted[k2], t, 1);
    }
  }

  /** Every operation keeps each image stored under its own id. */
  lemma StepKeepsWellKeyed(d: Doc, msg: Option<Message>)
    requires WellKeyed(d.images)
    ensures WellKeyed(Step(d, msg).images)
  {
  }

  /** No operation changes the id or the payload of an image it keeps, except
      that IMAGE_INSERT replaces a block already stored under its id. */
  lemma StepKeepsIdentity(d: Doc, msg: Option<Message>, k: int)
    requires k in d.images && k in Step(d, msg).images
    requires msg.Some? && msg.value.mode == Some(ImageInsert) ==> k != msg.value.blockId
    ensures SameIdentity(d.images[k], Step(d, msg).images[k])
  {
    if msg.Some? && msg.value.mode.Some? {
      var m := msg.value;
      match m.mode.value
      case Insert =>
        if m.text.Some? && m.text.value != [] {
          ShiftFromFacts(d.images, ClampOffset(m.offset, |d.text|), |m.text.value|);
        }
      case Delete =>
        var s := DeleteStart(d, m.offset);
        var e := DeleteEnd(d, m.offset, m.length);
        if s < e {
          CutRangeFacts(d.images, s, e);
        }
      case ImageInsert =>
        if m.payload.Some? {
          ShiftFromFacts(d.images, ClampOffset(m.offset, |d.text|), 1);
        }
      case ImageMove =>
        if m.blockId in d.images && MoveSource(d, m.blockId) != ClampOffset(m.newOffset, |d.text|) {
          var b := d.images[m.blockId];
          var lifted := ShiftExcept(d.images, b.id, MoveSource(d, m.blockId) + 1, -1);
          ShiftExceptFacts(d.images, b.id, MoveSource(d, m.blockId) + 1, -1);
          ShiftExceptFacts(lifted, b.id, MoveTarget(d, m.blockId, m.newOffset), 1);
        }
      case _ =>
    }
  }

  /** A stored state's images load as a map holding every listed id, each
      built from its state, provided the ids are distinct. */
  lemma {:induction false} BlocksOfLookup(states: seq<ImageState>)
    requires forall i, j :: 0 <= i < j < |states| ==> states[i].id != states[j].id
    ensures forall k :: k in BlocksOf(states) <==> exists i :: 0 <= i < |states| && states[i].id == k
    ensures forall i :: 0 <= i < |states| ==> BlocksOf(states)[states[i].id] == FromState(states[i])
    decreases |states|
  {
    if states != [] {
      var n := |states| - 1;
      var init := states[..n];
      BlocksOfLookup(init);
      assert forall i :: 0 <= i < n ==> init[i] == states[i];
      forall k
        ensures k in BlocksOf(states) <==> exists i :: 0 <= i < |states| && states[i].id == k
      {
        if k in BlocksOf(init) {
          var i :| 0 <= i < |init| && init[i].id == k;
          assert states[i].id == k;
        }
      }
    }
  }

  /** After loading, every image is stored under its own id. */
  lemma {:induction false} LoadedIsWellKeyed(states: seq<ImageState>)
    ensures WellKeyed(BlocksOf(states))
    decreases |states|
  {
    if states != [] {
      LoadedIsWellKeyed(states[..|states| - 1]);
    }
  }

  /** Loading a snapshot of a document gives back the same text and images. */
  lemma LoadCreateRoundTrip(st: DocumentState, d: Doc)
    requires WellKeyed(d.images) && IsSnapshotOf(st, d)
    ensures Loaded(Some(st)) == d
  {
    var s := st.images.value;
    BlocksOfLookup(s);
    var m := BlocksOf(s);
    forall k | k in m
      ensures k in d.images && m[k] == d.images[k]
    {
      var i :| 0 <= i < |s| && s[i].id == k;
      BlockRoundTrip(d.images[k]);
    }
    forall k | k in d.images
      ensures k in m
    {
      var i :| 0 <= i < |s| && s[i].id == k;
    }
  }

  /** Loading nothing leaves an empty document. */
  lemma LoadNullIsEmpty()
    ensures Loaded(None) == Doc([], map[])
  {
  }

  // ---------------------------------------------------------------------
  // Text length over a run of edits

  /** How much one INSERT or DELETE changes the text length, given the state
      it is applied to: the inserted length, or minus the clamped deleted one. */
  function LengthChange(d: Doc, m: Message): int {
    if m.mode == Some(Insert) then (if m.text.Some? then |m.text.value| else 0)
    else if m.mode == Some(Delete) then
      (if DeleteStart(d, m.offset) < DeleteEnd(d, m.offset, m.length)
       then -(DeleteEnd(d, m.offset, m.length) - DeleteStart(d, m.offset)) else 0)
    else 0
  }

  function ApplyAll(d: Doc, msgs: seq<Message>): Doc
    decreases |msgs|
  {
    if msgs == [] then d else ApplyAll(Step(d, Some(msgs[0])), msgs[1..])
  }

  /** The sum of LengthChange along a run, each taken in the state it meets. */
  function TotalChange(d: Doc, msgs: seq<Message>): int
    decreases |msgs|
  {
    if msgs == [] then 0 else LengthChange(d, msgs[0]) + TotalChange(Step(d, Some(msgs[0])), msgs[1..])
  }

  /** After any run of INSERTs and DELETEs the text length is the initial one
      plus the inserted lengths minus the clamped deleted lengths. */
  lemma {:induction false} TextLengthAccounting(d: Doc, msgs: seq<Message>)
    requires forall i :: 0 <= i < |msgs| ==> msgs[i].mode == Some(Insert) || msgs[i].mode == Some(Delete)
    ensures |ApplyAll(d, msgs).text| == |d.text| + TotalChange(d, msgs)
    decreases |msgs|
  {
    if msgs != [] {
      var m := msgs[0];
      if m.mode == Some(Insert) {
        InsertEffect(d, m.text, m.offset);
      } else {
        DeleteEffect(d, m.offset, m.length);
      }
      TextLengthAccounting(Step(d, Some(m)), msgs[1..]);
    }
  }

  // ---------------------------------------------------------------------
  // The state machine as the server runs it


  class DocumentManager {
    var text: seq<char>
    var images: map<int, ImageBlock>

    ghost predicate Valid()
      reads this
    {
      WellKeyed(images)
    }

    function State(): Doc
      reads this
    {
      Doc(text, images)
    }

    constructor ()
      ensures Valid() && State() == Doc([], map[])
    {
      text := [];
      images := map[];
    }

    method Apply(msg: Option<Message>)
      requires Valid()
      modifies this
      ensures Valid()
      ensures State() == Step(old(State()), msg)
    {
      if msg.None? || msg.value.mode.None? {
        return;
      }
      var m := msg.value;
      match m.mode.value
      case Insert => ApplyInsert(m);
      case Delete => ApplyDelete(m);
      case FullSync => ApplyFullSync(m);
      case ImageInsert => ApplyImageInsert(m);
      case ImageResize => ApplyImageResize(m);
      case ImageMove => ApplyImageMove(m);
      case _ =>
    }

    method ApplyInsert(msg: Message)
      requires Valid()
      modifies this
      ensures Valid()
      ensures State() == InsertStep(old(State()), msg.text, msg.offset)
    {
      if msg.text.None? || msg.text.value == [] {
        return;
      }
      var offset := ClampOffset(msg.offset, |text|);
      text := InsertAt(text, offset, msg.text.value);
      ShiftImages(offset, |msg.text.value|);
    }

    method ApplyDelete(msg: Message)
      requires Valid()
      modifies this
      ensures Valid()
      ensures State() == DeleteStep(old(State()), msg.offset, msg.length)
    {
      var start := ClampOffset(msg.offset, |text|);
      var end := ClampOffset(Wrap32(msg.offset + msg.length), |text|);
      if start >= end {
        return;
      }
      text := text[..start] + text[end..];
      images := CutAll(images, start, end);
    }

    method ApplyFullSync(msg: Message)
      requires Valid()
      modifies this
      ensures Valid()
      ensures State() == FullSyncStep(old(State()), msg.text)
    {
      text := [];
      if msg.text.Some? {
        text := text + msg.text.value;
      }
    }

    method ApplyImageInsert(msg: Message)
      requires Valid()
      modifies this
      ensures Valid()
      ensures State() == ImageInsertStep(old(State()), msg.blockId, msg.offset, msg.width, msg.height, msg.payload)
    {
      if msg.payload.None? {
        return;
      }
      var offset := ClampOffset(msg.offset, |text|);
      text := InsertAt(text, offset, [PLACEHOLDER]);
      ShiftImages(offset, 1);
      var w := if msg.width > 0 then msg.width else -1;
      var h := if msg.height > 0 then msg.height else -1;
      var block := ImageBlock(msg.blockId, offset, w, h, msg.payload);
      images := images[block.id := block];
    }

    method ApplyImageResize(msg: Message)
      requires Valid()
      modifies this
      ensures Valid()
      ensures State() == ImageResizeStep(old(State()), msg.blockId, msg.width, msg.height)
    {
      if msg.blockId !in images {
        return;
      }
      var block := images[msg.blockId];
      if msg.width > 0 {
        block := block.(width := msg.width);
      }
      if msg.height > 0 {
        block := block.(height := msg.height);
      }
      images := images[msg.blockId := block];
    }

    method ApplyImageMove(msg: Message)
      requires Valid()
      modifies this
      ensures Valid()
      ensures State() == ImageMoveStep(old(State()), msg.blockId, msg.newOffset)
    {
      if msg.blockId !in images {
        return;
      }
      ghost var d := State();
      var block := images[msg.blockId];
      var oldOffset := ClampOffset(block.offset, |text|);
      var newOffset := ClampOffset(msg.newOffset, |text|);
      if oldOffset == newOffset {
        return;
      }
      if oldOffset < |text| && text[oldOffset] == PLACEHOLDER {
        text := text[..oldOffset] + text[oldOffset + 1..];
      }
      assert text == MoveLifted(d, msg.blockId);

      // every other block after the old position moves back by one
      var lifted := ShiftAllExcept(images, block.id, oldOffset + 1, -1);

      if newOffset > oldOffset {
        newOffset := newOffset - 1;
      }
      newOffset := ClampOffset(newOffset, |text|);
      text := InsertAt(text, newOffset, [PLACEHOLDER]);

      // every other block at or after the new position moves on by one
      var placed := ShiftAllExcept(lifted, block.id, newOffset, 1);
      assert newOffset == MoveTarget(d, msg.blockId, msg.newOffset);
      ShiftExceptKeepsIds(images, block.id, oldOffset + 1, -1);
      ShiftExceptKeepsIds(lifted, block.id, newOffset, 1);
      images := placed[msg.blockId := block.(offset := newOffset)];
    }

    /** Moves every image at or after `fromOffset` by `delta`. */
    method ShiftImages(fromOffset: int, delta: int)
      requires Valid()
      modifies this
      ensures Valid()
      ensures text == old(text)
      ensures images == ShiftFrom(old(images), fromOffset, delta)
    {
      if delta == 0 {
        ShiftFromZero(images, fromOffset);
        return;
      }
      images := ShiftAll(images, fromOffset, delta);
    }

    method GetDocument() returns (s: string)
      ensures s == text
    {
      s := text;
    }

    /** One IMAGE_INSERT message per stored block, in the map's iteration order. */
    method BuildFullImageSyncMessages(docId: string, userId: string) returns (msgs: seq<Message>)
      requires Valid()
      ensures ListsSyncMessages(msgs, images, docId, userId)
    {
      msgs := [];
      var pending := images.Keys;
      while pending != {}
        modifies {}
        invariant pending <= images.Keys
        invariant forall i :: 0 <= i < |msgs| ==>
          msgs[i].blockId in images && msgs[i].blockId !in pending
          && msgs[i] == ImageSyncMessage(docId, userId, images[msgs[i].blockId])
        invariant forall i, j :: 0 <= i < j < |msgs| ==> msgs[i].blockId != msgs[j].blockId
        invariant forall k :: k in images && k !in pending ==> exists i :: 0 <= i < |msgs| && msgs[i].blockId == k
        decreases pending
      {
        var k := Pick(pending);
        var b := images[k];
        ghost var prev := msgs;
        msgs := msgs + [ImageSyncMessage(docId, userId, b)];
        forall k' | k' in images && k' !in pending - {k}
          ensures exists i :: 0 <= i < |msgs| && msgs[i].blockId == k'
        {
          if k' == k {
            assert msgs[|prev|].blockId == k';
          } else {
            var i :| 0 <= i < |prev| && prev[i].blockId == k';
            assert msgs[i].blockId == k';
          }
        }
        pending := pending - {k};
      }
    }

    /** A snapshot of the text and of every block, in the map's iteration order. */
    method CreateState() returns (st: DocumentState)
      requires Valid()
      ensures IsSnapshotOf(st, State())
    {
      var list: seq<ImageState> := [];
      var pending := images.Keys;
      while pending != {}
        modifies {}
        invariant pending <= images.Keys
        invariant forall i :: 0 <= i < |list| ==>
          list[i].id in images && list[i].id !in pending && list[i] == ToState(images[list[i].id])
        invariant forall i, j :: 0 <= i < j < |list| ==> list[i].id != list[j].id
        invariant forall k :: k in images && k !in pending ==> exists i :: 0 <= i < |list| && list[i].id == k
        decreases pending
      {
        var k := Pick(pending);
        var b := images[k];
        ghost var prev := list;
        list := list + [ToState(b)];
        forall k' | k' in images && k' !in pending - {k}
          ensures exists i :: 0 <= i < |list| && list[i].id == k'
        {
          if k' == k {
            assert list[|prev|].id == k';
          } else {
            var i :| 0 <= i < |prev| && prev[i].id == k';
            assert list[i].id == k';
          }
        }
        pending := pending - {k};
      }
      st := DocumentState(Some(text), Some(list));
    }

    method LoadState(state: Option<DocumentState>)
      modifies this
      ensures Valid()
      ensures State() == Loaded(state)
    {
      text := [];
      images := map[];
      if state.None? {
        return;
      }
      var st := state.value;
      if st.text.Some? {
        text := text + st.text.value;
      }
      if st.images.Some? {
        var list := st.images.value;
        var loaded := map[];
        for i := 0 to |list|
          invariant loaded == BlocksOf(list[..i])
        {
          assert list[..i + 1][..i] == list[..i];
          loaded := loaded[list[i].id := FromState(list[i])];
        }
        assert list[..|list|] == list;
        LoadedIsWellKeyed(list);
        images := loaded;
      }
    }
  }
}
