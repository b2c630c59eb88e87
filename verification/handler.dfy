/**
 * The `Handler` class of pyzulipbot/zulipbot.py and the two dictionary
 * shapes it works with: an incoming message and a reply channel.
 */
module Handler {
  import opened Wrappers

  /**
   * Where a reply goes: `{"to": ...}` for a private conversation,
   * `{"to": ..., "subject": ...}` for a stream topic. A missing "subject"
   * key is `None`.
   */
  datatype Channel = Channel(to: string, subject: Option<string>)

  /**
   * An incoming message as delivered by the chat client. The keys read
   * inside the bot's exception handler may be missing (`None`); the sender
   * id is read outside it and is always present here. A missing "type"
   * reads as the empty string.
   */
  datatype Message = Message(
    msgType: Option<string>,
    senderId: int,
    content: Option<string>,
    senderEmail: Option<string>,
    displayRecipient: Option<string>,
    subject: Option<string>)

  /**
   * A matching rule: trigger phrases, candidate replies, the copy of the
   * replies used to undo formatting, whether a callback is attached, an
   * optional fixed channel, and the last message that fired it.
   */
  datatype Handler = Handler(
    handlerId: string,
    message: seq<string>,
    reply: Option<seq<string>>,
    orgReply: Option<seq<string>>,
    hasCallback: bool,
    channel: Option<Channel>,
    received: Option<Message>)

  /** `Handler.__init__`: the reply copy starts equal to the replies and nothing has been received. */
  function NewHandler(handlerId: string, message: seq<string>, reply: Option<seq<string>>,
                      hasCallback: bool, channel: Option<Channel>): (h: Handler)
    ensures h.handlerId == handlerId && h.message == message && h.reply == reply
    ensures h.orgReply == h.reply
    ensures h.hasCallback == hasCallback && h.channel == channel
    ensures h.received.None?
  {
    Handler(handlerId, message, reply, reply, hasCallback, channel, None)
  }

  /**
   * `Handler.format_reply`: rewrites the first reply with `format`, which
   * stands for Python's `str.format(msg)`. Indexing a missing or empty
   * reply list raises; that is the `None` result. The copy in `orgReply`
   * is left alone, as its documented purpose demands.
   */
  function FormatReply(h: Handler, format: string -> string): (r: Option<Handler>)
    ensures r.None? <==> h.reply.None? || |h.reply.value| == 0
    ensures r.Some? ==>
      && r.value.reply.Some?
      && |r.value.reply.value| == |h.reply.value|
      && r.value.reply.value[0] == format(h.reply.value[0])
      && (forall i :: 1 <= i < |h.reply.value| ==> r.value.reply.value[i] == h.reply.value[i])
      && r.value == h.(reply := r.value.reply)
  {
    match h.reply
    case None => None
    case Some(rs) =>
      if |rs| == 0 then None
      else Some(h.(reply := Some(rs[0 := format(rs[0])])))
  }
}
