/** A connected client as the document code sees it: the document it has
    open, and the messages sent to it so far. */
module Sessions {
  import opened Common

  class Session {
    /** The id of the open document, or null. */
    var currentDocId: Option<string>
    /** Every message sent to this client, oldest first. */
    var outbox: seq<Message>

    constructor ()
      ensures currentDocId == None && outbox == []
    {
      currentDocId := None;
      outbox := [];
    }

    method Send(msg: Message)
      modifies this
      ensures currentDocId == old(currentDocId)
      ensures outbox == old(outbox) + [msg]
    {
      outbox := outbox + [msg];
    }
  }
}
