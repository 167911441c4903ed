/** The messaging transport as the bot sees it: an ordered log of the calls
    made to it, and a script of the replies its send calls get. */
module Transport {

  import opened Model

  class Outbox {
    /** Every call made to the transport, oldest first. */
    var log: seq<Event>
    /** The replies still to come for send calls; once it is empty every
        send fails. */
    var script: seq<Reply>

    constructor (script: seq<Reply>)
      ensures log == [] && this.script == script
    {
      log := [];
      this.script := script;
    }

    /** A send call (`send_message`, `send_photo`, `send_video`,
        `send_document`): gets the next scripted reply and logs the call
        with it. */
    method Send(chat: int, message: Outgoing) returns (reply: Reply)
      modifies this
      ensures reply == ReplyAt(old(script), 0)
      ensures script == Drop(old(script), 1)
      ensures log == old(log) + [Sent(chat, message, reply)]
    {
      reply := ReplyAt(script, 0);
      script := Drop(script, 1);
      log := log + [Sent(chat, message, reply)];
    }

    /** `reply_to` on an owner command. */
    method Notify(chat: int, notice: Notice)
      modifies this
      ensures script == old(script)
      ensures log == old(log) + [Replied(chat, notice)]
    {
      log := log + [Replied(chat, notice)];
    }

    /** `asyncio.create_task(delete_message_after_delay(...))`: the deletion
        is scheduled with the delay in force now. */
    method ScheduleDelete(chat: int, messageId: int, delay: nat)
      modifies this
      ensures script == old(script)
      ensures log == old(log) + [DeleteScheduled(chat, messageId, delay)]
    {
      log := log + [DeleteScheduled(chat, messageId, delay)];
    }

    /** `answer_callback_query`, with or without an alert. */
    method AnswerCallback(callbackId: string, alert: bool)
      modifies this
      ensures script == old(script)
      ensures log == old(log) + [CallbackAnswered(callbackId, alert)]
    {
      log := log + [CallbackAnswered(callbackId, alert)];
    }

    /** An immediate `delete_message`, whose failure is ignored. */
    method Delete(chat: int, messageId: int)
      modifies this
      ensures script == old(script)
      ensures log == old(log) + [Deleted(chat, messageId)]
    {
      log := log + [Deleted(chat, messageId)];
    }
  }
}
