/** The client's table of embedded images: records keyed by id, a counter
    handing out ids for images created locally, the same offset-shifting
    rules the server applies, and a hit test by offset. */
module ClientImages {
  import opened Common
  import opened ImageBlocks
  import opened Offsets

  /** Distance between two offsets. */
  function Dist(a: int, b: int): nat {
    if a >= b then a - b else b - a
  }

  class ImageStore {
    /** Records keyed by id; a record is the same five fields as a server
        block (id, offset, width, height, data). */
    var images: map<int, ImageBlock>
    var nextId: int

    /** Each record sits under its own id, and every id is below nextId. */
    ghost predicate Valid()
      reads this
    {
      forall k :: k in images ==> images[k].id == k && k < nextId
    }

    constructor ()
      ensures Valid() && images == map[] && nextId == 1
    {
      images := map[];
      nextId := 1;
    }

    /** A record under a fresh id, the counter's old value. */
    method CreateLocalImage(offset: int, width: int, height: int, data: Option<Bytes>) returns (info: ImageBlock)
      requires Valid()
      modifies this
      ensures Valid()
      ensures info == ImageBlock(old(nextId), offset, width, height, data)
      ensures info.id !in old(images)
      ensures nextId == old(nextId) + 1
      ensures images == old(images)[info.id := info]
    {
      info := ImageBlock(nextId, offset, width, height, data);
      nextId := nextId + 1;
      images := images[info.id := info];
    }

    /** A record announced by the server, stored or overwritten under `id`;
        the counter moves past `id` so local ids never collide with it. */
    method RegisterRemoteImage(id: int, offset: int, width: int, height: int, data: Option<Bytes>) returns (info: ImageBlock)
      requires Valid()
      modifies this
      ensures Valid()
      ensures info == ImageBlock(id, offset, width, height, data)
      ensures images == old(images)[id := info]
      ensures nextId == if id >= old(nextId) then id + 1 else old(nextId)
      ensures old(nextId) <= nextId && id < nextId
    {
      info := ImageBlock(id, offset, width, height, data);
      images := images[id := info];
      if id >= nextId {
        nextId := id + 1;
      }
    }

    /** The record stored under `id`, if any. */
    function Get(id: int): (r: Option<ImageBlock>)
      reads this
      ensures r.Some? <==> id in images
      ensures r.Some? ==> r.value == images[id]
      ensures Valid() && r.Some? ==> r.value.id == id && id < nextId
    {
      if id in images then Some(images[id]) else None
    }

    /** Only positive dimensions are taken; an unknown id changes nothing. */
    method Resize(id: int, width: int, height: int)
      requires Valid()
      modifies this
      ensures Valid()
      ensures nextId == old(nextId)
      ensures id !in old(images) ==> images == old(images)
      ensures id in old(images) ==>
        var b := old(images)[id];
        images == old(images)[id := b.(width := if width > 0 then width else b.width,
                                       height := if height > 0 then height else b.height)]
    {
      if id !in images {
        return;
      }
      var info := images[id];
      if width > 0 {
        info := info.(width := width);
      }
      if height > 0 {
        info := info.(height := height);
      }
      images := images[id := info];
    }

    /** The record's offset becomes `newOffset`; an unknown id changes nothing. */
    method Move(id: int, newOffset: int)
      requires Valid()
      modifies this
      ensures Valid()
      ensures nextId == old(nextId)
      ensures id !in old(images) ==> images == old(images)
      ensures id in old(images) ==> images == old(images)[id := old(images)[id].(offset := newOffset)]
    {
      if id !in images {
        return;
      }
      images := images[id := images[id].(offset := newOffset)];
    }

    /** Text of length `delta` went in at `fromOffset`. */
    method ShiftOnInsert(fromOffset: int, delta: int)
      requires Valid()
      modifies this
      ensures Valid()
      ensures nextId == old(nextId)
      ensures images == ShiftFrom(old(images), fromOffset, delta)
    {
      if delta == 0 {
        ShiftFromZero(images, fromOffset);
        return;
      }
      images := ShiftAll(images, fromOffset, delta);
      ShiftFromFacts(old(images), fromOffset, delta);
    }

    /** Text `[start, start + length)` went away; a non-positive length is
        ignored. */
    method ShiftOnDelete(start: int, length: int)
      requires Valid()
      modifies this
      ensures Valid()
      ensures nextId == old(nextId)
      ensures length <= 0 ==> images == old(images)
      ensures length > 0 ==> images == CutRange(old(images), start, start + length)
    {
      if length <= 0 {
        return;
      }
      var end := start + length;
      images := CutAll(images, start, end);
      CutRangeFacts(old(images), start, end);
    }

    /** The record whose offset is closest to `offset`, within one position;
        of two equally close records, the one the map hands out first wins. */
    method FindByOffsetNear(offset: int) returns (best: Option<ImageBlock>)
      ensures best.None? <==> forall k :: k in images ==> Dist(images[k].offset, offset) > 1
      ensures best.Some? ==>
        && best.value in images.Values
        && Dist(best.value.offset, offset) <= 1
        && forall k :: k in images ==> Dist(best.value.offset, offset) <= Dist(images[k].offset, offset)
    {
      best := None;
      var bestDist := INT_MAX;
      var pending := images.Keys;
      while pending != {}
        invariant pending <= images.Keys
        invariant best.None? ==> bestDist == INT_MAX
        invariant best.None? <==> forall k :: k in images && k !in pending ==> Dist(images[k].offset, offset) > 1
        invariant best.Some? ==>
          && best.value in images.Values
          && bestDist == Dist(best.value.offset, offset) <= 1
          && forall k :: k in images && k !in pending ==> bestDist <= Dist(images[k].offset, offset)
        decreases pending
      {
        var k := Pick(pending);
        var info := images[k];
        var dist := Dist(info.offset, offset);
        if dist < bestDist && dist <= 1 {
          bestDist := dist;
          best := Some(info);
        }
        pending := pending - {k};
      }
      assert forall k :: k in images ==> k !in pending;
    }
  }
}
