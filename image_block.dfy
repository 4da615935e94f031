/** An embedded image as the server keeps it (ImageBlock), its serialisable
    form (ImageState), and a stored document snapshot (DocumentState). */
module ImageBlocks {
  import opened Common

  /** An image block. The source declares `id` and `data` final and updates
      `offset`, `width` and `height` in place; here a block is a value and an
      update replaces the whole record (see ImageBlocks.SameIdentity). */
  datatype ImageBlock = ImageBlock(id: int, offset: int, width: int, height: int, data: Option<Bytes>)

  /** The serialisable copy of a block, as written into a snapshot. */
  datatype ImageState = ImageState(id: int, offset: int, width: int, height: int, data: Option<Bytes>)

  /** A stored document: its text and its images; either may be null in a blob. */
  datatype DocumentState = DocumentState(text: Option<string>, images: Option<seq<ImageState>>)

  /** The fields that never change once a block exists. */
  predicate SameIdentity(b: ImageBlock, b': ImageBlock) {
    b.id == b'.id && b.data == b'.data
  }

  function ToState(b: ImageBlock): (s: ImageState)
    ensures s.id == b.id && s.offset == b.offset && s.data == b.data
    ensures s.width == b.width && s.height == b.height
  {
    ImageState(b.id, b.offset, b.width, b.height, b.data)
  }

  function FromState(s: ImageState): (b: ImageBlock)
    ensures b.id == s.id && b.offset == s.offset && b.data == s.data
    ensures b.width == s.width && b.height == s.height
  {
    ImageBlock(s.id, s.offset, s.width, s.height, s.data)
  }

  /** Converting a block to its state and back gives the same block. */
  lemma BlockRoundTrip(b: ImageBlock)
    ensures FromState(ToState(b)) == b
  {
  }

  /** Converting a state to a block and back gives the same state. */
  lemma StateRoundTrip(s: ImageState)
    ensures ToState(FromState(s)) == s
  {
  }
}
