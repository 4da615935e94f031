/** Values shared by every component: Java's nullable references as Option,
    32-bit integer wrap-around, and the wire message exchanged by clients
    and the server. */
module Common {

  /** A Java reference that may be null. */
  datatype Option<+T> = None | Some(value: T) {
    function GetOr(default: T): T {
      match this
      case Some(v) => v
      case None => default
    }
  }

  /** Some element of a non-empty set: the next entry a Java iterator over a
      hash map or set would hand out, in an order the model leaves open. */
  method Pick<T>(s: set<T>) returns (x: T)
    requires s != {}
    ensures x in s
  {
    x :| x in s;
  }

  /** Two sets with the same members are equal. */
  lemma SetsAgree<T>(a: set<T>, b: set<T>)
    requires forall x :: x in a <==> x in b
    ensures a == b
  {
  }

  /** Two maps with the same keys and the same value under each key are equal. */
  lemma MapsAgree<K, V>(a: map<K, V>, b: map<K, V>)
    requires a.Keys == b.Keys
    requires forall k :: k in a ==> a[k] == b[k]
    ensures a == b
  {
  }

  /** Opaque image bytes; the model never inspects them. */
  type Bytes = seq<bv8>

  const INT_MIN: int := -0x8000_0000
  const INT_MAX: int := 0x7fff_ffff

  /** Java's `int` addition result: `x` reduced into the 32-bit two's-complement range. */
  function Wrap32(x: int): (r: int)
    ensures INT_MIN <= r <= INT_MAX
    ensures (r - x) % 0x1_0000_0000 == 0
    ensures INT_MIN <= x <= INT_MAX ==> r == x
  {
    (x - INT_MIN) % 0x1_0000_0000 + INT_MIN
  }

  /** Every operation kind carried by a message; the legacy server also used
      JOIN, LEAVE and CURSOR. */
  datatype Mode =
    | Insert | Delete | FullSync | SyncEnd
    | ImageInsert | ImageResize | ImageMove
    | DocList | DocOpen | DocCreate | DocDelete | DocLeave | DocDeleted
    | Lock | Unlock
    | Join | Leave | Cursor

  /** The wire message with the fields the server's document code reads or
      writes; a null field is `None`, an unset `int` field is 0. */
  datatype Message = Message(
    mode: Option<Mode>,
    userId: Option<string>,
    docId: Option<string>,
    text: Option<string>,
    offset: int,
    length: int,
    blockId: int,
    width: int,
    height: int,
    newOffset: int,
    payload: Option<Bytes>,
    docTitle: Option<string>)

  /** The three-argument message constructor: every other field keeps Java's
      default (null or 0). */
  function NewMessage(mode: Mode, userId: string, text: Option<string>): Message
  {
    Message(Some(mode), Some(userId), None, text, 0, 0, 0, 0, 0, 0, None, None)
  }
}
