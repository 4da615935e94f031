/** The offset bookkeeping shared by the server's document state machine and
    the client's image table: clamping an offset into the text, inserting into
    a sequence, and moving or dropping image blocks when text is inserted or
    deleted before them. */
module Offsets {
  import opened Common
  import opened ImageBlocks

  /** An offset forced into `[0, len]`. */
  function ClampOffset(offset: int, len: nat): (c: nat)
    ensures c <= len
    ensures 0 <= offset <= len ==> c == offset
    ensures offset < 0 ==> c == 0
    ensures offset > len ==> c == len
  {
    if offset < 0 then 0 else if offset > len then len else offset
  }

  /** `t` inserted into `s` before position `c`. */
  function InsertAt<T>(s: seq<T>, c: nat, t: seq<T>): seq<T>
    requires c <= |s|
  {
    s[..c] + t + s[c..]
  }

  /** The rule applied to one block: at or after `from` it moves by `delta`. */
  function ShiftOne(b: ImageBlock, from: int, delta: int): ImageBlock {
    if b.offset >= from then b.(offset := b.offset + delta) else b
  }

  /** Every block at or after `from` moved by `delta`. */
  function ShiftFrom(m: map<int, ImageBlock>, from: int, delta: int): map<int, ImageBlock> {
    map k | k in m :: ShiftOne(m[k], from, delta)
  }

  /** As ShiftFrom, but blocks whose id is `skipId` stay where they are. */
  function ShiftExcept(m: map<int, ImageBlock>, skipId: int, from: int, delta: int): map<int, ImageBlock> {
    map k | k in m :: if m[k].id == skipId then m[k] else ShiftOne(m[k], from, delta)
  }

  /** As ShiftFromFacts, with the block `skipId` left in place. */
  lemma ShiftExceptFacts(m: map<int, ImageBlock>, skipId: int, from: int, delta: int)
    ensures ShiftExcept(m, skipId, from, delta).Keys == m.Keys
    ensures forall k :: k in m ==>
      && ShiftExcept(m, skipId, from, delta)[k].offset ==
           (if m[k].id != skipId && m[k].offset >= from then m[k].offset + delta else m[k].offset)
      && SameIdentity(m[k], ShiftExcept(m, skipId, from, delta)[k])
      && ShiftExcept(m, skipId, from, delta)[k].width == m[k].width
      && ShiftExcept(m, skipId, from, delta)[k].height == m[k].height
  {
  }

  /** A shift never changes which id a key holds. */
  lemma ShiftExceptKeepsIds(m: map<int, ImageBlock>, skipId: int, from: int, delta: int)
    requires forall k :: k in m ==> m[k].id == k
    ensures forall k :: k in ShiftExcept(m, skipId, from, delta) ==> ShiftExcept(m, skipId, from, delta)[k].id == k
  {
  }

  predicate InRange(b: ImageBlock, start: int, end: int) {
    start <= b.offset < end
  }

  /** The text `[start, end)` is gone: blocks inside it are dropped and blocks
      at or after `end` move back by the length of the range. */
  function CutRange(m: map<int, ImageBlock>, start: int, end: int): map<int, ImageBlock> {
    map k | k in m && !InRange(m[k], start, end) :: ShiftOne(m[k], end, -(end - start))
  }

  lemma InsertAtFacts<T>(s: seq<T>, c: nat, t: seq<T>)
    requires c <= |s|
    ensures |InsertAt(s, c, t)| == |s| + |t|
    ensures InsertAt(s, c, t)[..c] == s[..c]
    ensures InsertAt(s, c, t)[c..c + |t|] == t
    ensures InsertAt(s, c, t)[c + |t|..] == s[c..]
  {
    var r := InsertAt(s, c, t);
    assert r == (s[..c] + t) + s[c..];
  }

  /** A shift by zero leaves every block in place. */
  lemma ShiftFromZero(m: map<int, ImageBlock>, from: int)
    ensures ShiftFrom(m, from, 0) == m
  {
    assert forall k :: k in m ==> ShiftOne(m[k], from, 0) == m[k];
  }

  /** Shifting keeps the set of blocks, moves only offsets at or after `from`,
      and never touches a block's id, data or size. */
  lemma ShiftFromFacts(m: map<int, ImageBlock>, from: int, delta: int)
    ensures ShiftFrom(m, from, delta).Keys == m.Keys
    ensures forall k :: k in m ==>
      && ShiftFrom(m, from, delta)[k].offset == (if m[k].offset >= from then m[k].offset + delta else m[k].offset)
      && SameIdentity(m[k], ShiftFrom(m, from, delta)[k])
      && ShiftFrom(m, from, delta)[k].width == m[k].width
      && ShiftFrom(m, from, delta)[k].height == m[k].height
  {
  }

  /** Cutting `[start, end)` drops exactly the blocks inside it; the rest keep
      their id, data and size, those at or after `end` move back by
      `end - start` and those before `start` stay put. */
  lemma CutRangeFacts(m: map<int, ImageBlock>, start: int, end: int)
    requires start <= end
    ensures forall k :: k in CutRange(m, start, end) <==> k in m && !(start <= m[k].offset < end)
    ensures forall k :: k in CutRange(m, start, end) ==>
      && CutRange(m, start, end)[k].offset == (if m[k].offset >= end then m[k].offset - (end - start) else m[k].offset)
      && SameIdentity(m[k], CutRange(m, start, end)[k])
      && CutRange(m, start, end)[k].width == m[k].width
      && CutRange(m, start, end)[k].height == m[k].height
  {
  }

  /** A shift with a non-negative delta keeps the order of any two blocks. */
  lemma ShiftOneMonotone(a: ImageBlock, b: ImageBlock, from: int, delta: int)
    requires a.offset <= b.offset && delta >= 0
    ensures ShiftOne(a, from, delta).offset <= ShiftOne(b, from, delta).offset
  {
  }

  // ---------------------------------------------------------------------
  // The loops that walk an image map in the source's iteration order

  /** The shift loop of the server's shiftImages and the client's
      shiftOnInsert: every block at or after `from` moves by `delta`. */
  method ShiftAll(m: map<int, ImageBlock>, from: int, delta: int) returns (r: map<int, ImageBlock>)
    ensures r == ShiftFrom(m, from, delta)
  {
    r := m;
    var pending := m.Keys;
    while pending != {}
      invariant pending <= m.Keys && r.Keys == m.Keys
      invariant forall k :: k in m ==>
        r[k] == if k in pending then m[k] else ShiftOne(m[k], from, delta)
      decreases pending
    {
      var k := Pick(pending);
      var b := r[k];
      if b.offset >= from {
        r := r[k := b.(offset := b.offset + delta)];
      }
      pending := pending - {k};
    }
    ShiftFromFacts(m, from, delta);
    forall k | k in r
      ensures r[k] == ShiftFrom(m, from, delta)[k]
    {
      assert k !in pending;
    }
    MapsAgree(r, ShiftFrom(m, from, delta));
  }

  /** The loop the server's IMAGE_MOVE runs twice: every block other than
      `skipId` at or after `from` moves by `delta`. */
  method ShiftAllExcept(m: map<int, ImageBlock>, skipId: int, from: int, delta: int) returns (r: map<int, ImageBlock>)
    ensures r == ShiftExcept(m, skipId, from, delta)
  {
    r := m;
    var pending := m.Keys;
    while pending != {}
      invariant pending <= m.Keys && r.Keys == m.Keys
      invariant forall k :: k in m ==>
        r[k] == if k in pending || m[k].id == skipId then m[k] else ShiftOne(m[k], from, delta)
      decreases pending
    {
      var k := Pick(pending);
      var b := r[k];
      if b.id != skipId && b.offset >= from {
        r := r[k := b.(offset := b.offset + delta)];
      }
      pending := pending - {k};
    }
    ShiftExceptFacts(m, skipId, from, delta);
    forall k | k in r
      ensures r[k] == ShiftExcept(m, skipId, from, delta)[k]
    {
      assert k !in pending;
    }
    MapsAgree(r, ShiftExcept(m, skipId, from, delta));
  }

  /** The iterator loop of the server's DELETE and the client's
      shiftOnDelete: blocks in `[start, end)` are removed, those at or after
      `end` move back by `end - start`. */
  method CutAll(m: map<int, ImageBlock>, start: int, end: int) returns (r: map<int, ImageBlock>)
    requires start <= end
    ensures r == CutRange(m, start, end)
  {
    var delta := end - start;
    r := m;
    var pending := m.Keys;
    while pending != {}
      invariant pending <= m.Keys
      invariant forall k :: k in r ==> k in m
      invariant forall k :: k in pending ==> k in r && r[k] == m[k]
      invariant forall k :: k in m && k !in pending ==> (k in r <==> !InRange(m[k], start, end))
      invariant forall k :: k in r && k !in pending ==> r[k] == ShiftOne(m[k], end, -delta)
      decreases pending
    {
      var k := Pick(pending);
      var b := r[k];
      if b.offset >= start && b.offset < end {
        r := r - {k};
      } else if b.offset >= end {
        r := r[k := b.(offset := b.offset - delta)];
      }
      pending := pending - {k};
    }
    CutRangeFacts(m, start, end);
    forall k
      ensures k in r <==> k in CutRange(m, start, end)
      ensures k in r ==> r[k] == CutRange(m, start, end)[k]
    {
      assert k !in pending;
    }
    SetsAgree(r.Keys, CutRange(m, start, end).Keys);
    MapsAgree(r, CutRange(m, start, end));
  }
}
