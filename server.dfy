/**
 * The process-wide state of the server and the long-poll cycle that updates it
 * in place: the update cursor, the in-flight flag and the display buffer.
 */
module Server {
  import opened Wrappers
  import opened Updates
  import opened Normalise
  import opened Ingest

  /** What the long-poll request yields: the `result` list of updates, or a thrown error. */
  datatype Reply = Fetched(result: seq<Update>) | Failed

  class Poller {
    /** Offset of the next update to request. */
    var lastUpdateId: int
    /** True while a poll cycle is between its guard and its `finally`. */
    var isPolling: bool
    /** The newest records, oldest first, served to viewers. */
    var messages: seq<Message>

    /** The cursor and the buffer as a value of the functional model. */
    function Snapshot(): State
      reads this
    {
      State(lastUpdateId, messages)
    }

    ghost predicate Valid()
      reads this
    {
      Inv(Snapshot())
    }

    constructor ()
      ensures Valid()
      ensures lastUpdateId == 0 && !isPolling && messages == []
    {
      lastUpdateId := 0;
      isPolling := false;
      messages := [];
    }

    /** The body of the per-update loop: re-check, advance, normalise, append, evict. */
    method ProcessUpdate(u: Update, fmt: int -> string)
      requires Valid() && isPolling
      modifies this
      ensures Valid() && isPolling
      ensures Snapshot() == Step(old(Snapshot()), u, fmt)
    {
      ghost var before := Snapshot();
      if u.updateId >= lastUpdateId {
        lastUpdateId := u.updateId + 1;

        var content: Option<Payload> := None;
        if u.message.Some? {
          content := u.message;
        } else if u.channelPost.Some? {
          content := u.channelPost;
        } else if u.editedMessage.Some? {
          content := u.editedMessage;
        }
        assert content == SelectPayload(u);

        if content.Some? {
          var p := content.value;
          var from := UNKNOWN_SENDER;
          if p.from.Some? && Truthy(p.from.value.firstName) {
            from := p.from.value.firstName.value;
          } else if p.senderChat.Some? && Truthy(p.senderChat.value.title) {
            from := p.senderChat.value.title.value;
          }
          assert from == SenderName(p);
          var text := if Truthy(p.text) then p.text.value else NON_TEXT;
          var date := fmt(p.date);
          var chatId := if p.chat.Some? then ChatNumber(p.chat.value.id) else ChatText(UNKNOWN_CHAT);

          var record := Message(u.updateId, chatId, from, text, date);
          assert record == ToMessage(u.updateId, p, fmt);

          var buffer := messages + [record];
          if |buffer| > Capacity {
            buffer := buffer[1..];
          }
          assert buffer == Append(before.buffer, record);
          messages := buffer;
        }
      }
      StepKeepsInv(before, u, fmt);
    }

    /** The `forEach` over one batch of updates. */
    method ProcessBatch(us: seq<Update>, fmt: int -> string)
      requires Valid() && isPolling
      modifies this
      ensures Valid() && isPolling
      ensures Snapshot() == RunBatch(old(Snapshot()), us, fmt)
    {
      ghost var start := Snapshot();
      var i := 0;
      while i < |us|
        invariant 0 <= i <= |us|
        invariant Valid() && isPolling
        invariant Snapshot() == RunBatch(start, us[..i], fmt)
      {
        ProcessUpdate(us[i], fmt);
        assert us[..i + 1][..i] == us[..i];
        i := i + 1;
      }
      assert us[..|us|] == us;
    }

    /**
     * The guard, up to the long-poll request: a cycle already in flight makes
     * this one give up; otherwise this one marks itself in flight.
     */
    method EnterPoll() returns (proceed: bool)
      requires Valid()
      modifies this
      ensures Valid() && isPolling
      ensures proceed == !old(isPolling)
      ensures Snapshot() == old(Snapshot())
    {
      if isPolling {
        return false;
      }
      isPolling := true;
      return true;
    }

    /** From the reply of the long-poll request to the `finally` that clears the flag. */
    method FinishPoll(reply: Reply, fmt: int -> string)
      requires Valid() && isPolling
      modifies this
      ensures Valid() && !isPolling
      ensures reply.Failed? ==> Snapshot() == old(Snapshot())
      ensures reply == Fetched([]) ==> Snapshot() == old(Snapshot())
      ensures reply.Fetched? ==> Snapshot() == RunBatch(old(Snapshot()), reply.result, fmt)
    {
      match reply {
        case Failed =>
        case Fetched(updates) =>
          if |updates| > 0 {
            ProcessBatch(updates, fmt);
          }
      }
      isPolling := false;
    }

    /**
     * One poll cycle with `reply` standing for what the request returns: skipped
     * without any change while another cycle is in flight, otherwise the batch
     * is ingested (nothing changes on failure) and the flag is cleared.
     */
    method Poll(reply: Reply, fmt: int -> string)
      requires Valid()
      modifies this
      ensures Valid()
      ensures old(isPolling) ==> isPolling && Snapshot() == old(Snapshot())
      ensures !old(isPolling) ==> !isPolling
      ensures !old(isPolling) && (reply.Failed? || reply == Fetched([])) ==> Snapshot() == old(Snapshot())
      ensures !old(isPolling) && reply.Fetched? ==>
        Snapshot() == RunBatch(old(Snapshot()), reply.result, fmt)
    {
      var proceed := EnterPoll();
      if proceed {
        FinishPoll(reply, fmt);
      }
    }
  }
}
