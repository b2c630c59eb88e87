/**
 * `Handler.__init__` stores the same list object as both `reply` and
 * `org_reply`, and `format_reply` assigns into that list. The reset after
 * sending (`handler.reply = handler.org_reply`) therefore restores nothing:
 * a formatted reply stays formatted for every later message, although
 * `org_reply` is documented as a copy kept for undoing the formatting.
 *
 * This module models the program as written, where one list is seen
 * through both fields, next to the documented behaviour that the rest of
 * the model uses (`Handler.FormatReply`, which leaves `orgReply` alone).
 */
module Aliasing {
  import opened Wrappers
  import opened Handler
  import opened ZulipBot

  /** `format_reply` as written: the rewritten list is also what `org_reply` refers to. */
  function FormatReplyAliased(h: Handler, format: string -> string): (r: Option<Handler>)
    ensures r.None? <==> h.reply.None? || |h.reply.value| == 0
    ensures r.Some? ==> r.value.orgReply == r.value.reply
    ensures r.Some? ==>
      && r.value.reply.Some?
      && |r.value.reply.value| == |h.reply.value|
      && r.value.reply.value[0] == format(h.reply.value[0])
      && (forall i :: 1 <= i < |h.reply.value| ==> r.value.reply.value[i] == h.reply.value[i])
      && r.value == h.(reply := r.value.reply, orgReply := r.value.reply)
  {
    match FormatReply(h, format)
    case None => None
    case Some(g) => Some(g.(orgReply := g.reply))
  }

  /** As written, sending after formatting keeps the formatted replies: the reset is a no-op. */
  lemma AliasedResetKeepsFormatting(h: Handler, format: string -> string, channel: Option<Channel>,
                                    callback: Option<string>, pick: nat)
    requires FormatReplyAliased(h, format).Some?
    requires RunHandler(FormatReplyAliased(h, format).value, channel, callback, pick).Sent?
    ensures RunHandler(FormatReplyAliased(h, format).value, channel, callback, pick).handler.reply
      == FormatReplyAliased(h, format).value.reply
  {
  }

  /**
   * A concrete case: the template "hello {}" is formatted for one message (to "hello bob")
   * and sent; afterwards the handler's reply is still "hello bob", so the
   * next `format_reply` has no placeholder left to fill.
   */
  lemma AliasedTemplateIsLost(format: string -> string)
    requires format("hello {}") == "hello bob"
    ensures var h := NewHandler("greet", ["hi"], Some(["hello {}"]), false, None);
      var g := FormatReplyAliased(h, format).value;
      var r := RunHandler(g, Some(Channel("bob@example.com", None)), None, 0);
      r.Sent? && r.out.content == "hello bob" && r.handler.reply == Some(["hello bob"]) && r.handler.reply != h.reply
  {
    var h := NewHandler("greet", ["hi"], Some(["hello {}"]), false, None);
    var g := FormatReplyAliased(h, format).value;
    assert |g.reply.value| == 1 && g.reply.value[0] == "hello bob";
    assert g.reply.value == ["hello bob"];
    assert '@' in "bob@example.com";
  }

  /**
   * As documented: for a handler whose copy equals its replies (every
   * handler `add_handler` builds), formatting and then sending leaves the
   * handler exactly as it was, so the template is restored.
   */
  lemma FormatThenSendRestoresTemplate(h: Handler, format: string -> string, channel: Option<Channel>,
                                       callback: Option<string>, pick: nat)
    requires h.orgReply == h.reply
    requires FormatReply(h, format).Some?
    requires RunHandler(FormatReply(h, format).value, channel, callback, pick).Sent?
    ensures RunHandler(FormatReply(h, format).value, channel, callback, pick).handler == h
  {
  }

  /** The documented behaviour on the same concrete case: the template is back after sending. */
  lemma TemplateIsRestored(format: string -> string)
    requires format("hello {}") == "hello bob"
    ensures var h := NewHandler("greet", ["hi"], Some(["hello {}"]), false, None);
      var g := FormatReply(h, format).value;
      var r := RunHandler(g, Some(Channel("bob@example.com", None)), None, 0);
      r.Sent? && r.out.content == "hello bob" && r.handler.reply == Some(["hello {}"])
  {
    var h := NewHandler("greet", ["hi"], Some(["hello {}"]), false, None);
    var g := FormatReply(h, format).value;
    assert |g.reply.value| == 1 && g.reply.value[0] == "hello bob";
    assert g.reply.value == ["hello bob"];
    assert '@' in "bob@example.com";
  }
}
