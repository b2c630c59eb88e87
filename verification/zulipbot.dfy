/**
 * The dispatch logic of the `ZulipBot` class in pyzulipbot/zulipbot.py:
 * the handler registry, the filter applied to every incoming message, the
 * first-match scan over the handlers, and the decision whether, what and
 * where to reply. Sending is not performed; the message that would be sent
 * is returned.
 */
module ZulipBot {
  import opened Wrappers
  import opened Text
  import opened Handler

  /** The bot: the user id and full name of its own profile, and its handlers in registration order. */
  datatype Bot = Bot(userId: int, fullName: string, handlers: seq<Handler>)

  /** A `msg` or `reply` argument of `add_handler`: one string or a list of strings. */
  datatype Arg = One(s: string) | Many(items: seq<string>)

  // ---------------------------------------------------------------------
  // Handler registry
  // ---------------------------------------------------------------------

  /** `i` is the first position in `hs` holding a handler with id `handlerId`. */
  predicate FirstWithId(hs: seq<Handler>, handlerId: string, i: int) {
    && 0 <= i < |hs|
    && hs[i].handlerId == handlerId
    && forall j :: 0 <= j < i ==> hs[j].handlerId != handlerId
  }

  /** The position `get_handler` stops at, scanning the list front to back. */
  function FindHandler(hs: seq<Handler>, handlerId: string): (r: Option<nat>)
    ensures r.Some? ==> FirstWithId(hs, handlerId, r.value)
    ensures r.None? ==> forall j :: 0 <= j < |hs| ==> hs[j].handlerId != handlerId
  {
    if |hs| == 0 then None
    else if hs[0].handlerId == handlerId then Some(0)
    else match FindHandler(hs[1..], handlerId)
      case None => None
      case Some(k) => Some(k + 1)
  }

  /** `get_handler`: the first handler with the given id, or `None` when no handler has it. */
  function GetHandler(hs: seq<Handler>, handlerId: string): (r: Option<Handler>)
    ensures r.None? <==> forall j :: 0 <= j < |hs| ==> hs[j].handlerId != handlerId
    ensures r.Some? ==> exists i :: FirstWithId(hs, handlerId, i) && hs[i] == r.value
  {
    match FindHandler(hs, handlerId)
    case None => None
    case Some(i) => Some(hs[i])
  }

  /** Lower-cases every element of a list, as the loop of `add_handler` does in place. */
  function LowerAll(xs: seq<string>): (r: seq<string>)
    ensures |r| == |xs|
    ensures forall i :: 0 <= i < |xs| ==> r[i] == Lower(xs[i])
  {
    seq(|xs|, i requires 0 <= i < |xs| => Lower(xs[i]))
  }

  /** The trigger list `add_handler` stores for its `msg` argument. */
  function Triggers(msg: Arg): seq<string> {
    match msg
    case One(s) => [Lower(s)]
    case Many(xs) => LowerAll(xs)
  }

  /** The reply list `add_handler` stores: a single string is lower-cased, a list is kept as given. */
  function Replies(reply: Option<Arg>): Option<seq<string>> {
    match reply
    case None => None
    case Some(One(s)) => Some([Lower(s)])
    case Some(Many(xs)) => Some(xs)
  }

  /**
   * `add_handler`: builds a handler from its arguments and appends it.
   * Triggers are always stored lower-case; a single reply string becomes a
   * one-element list of its lower-cased form, a reply list is stored as
   * given, and an absent reply stays absent.
   */
  function AddHandler(b: Bot, handlerId: string, msg: Arg, reply: Option<Arg>,
                      hasCallback: bool, channel: Option<Channel>): (b': Bot)
    ensures b'.userId == b.userId && b'.fullName == b.fullName
    ensures |b'.handlers| == |b.handlers| + 1
    ensures b'.handlers[..|b.handlers|] == b.handlers
    ensures b'.handlers[|b.handlers|].handlerId == handlerId
    ensures b'.handlers[|b.handlers|].hasCallback == hasCallback
    ensures b'.handlers[|b.handlers|].channel == channel
    ensures b'.handlers[|b.handlers|].received.None?
    ensures b'.handlers[|b.handlers|].orgReply == b'.handlers[|b.handlers|].reply
    ensures msg.One? ==> b'.handlers[|b.handlers|].message == [Lower(msg.s)]
    ensures msg.Many? ==>
      && |b'.handlers[|b.handlers|].message| == |msg.items|
      && forall i :: 0 <= i < |msg.items| ==> b'.handlers[|b.handlers|].message[i] == Lower(msg.items[i])
    ensures forall i :: 0 <= i < |b'.handlers[|b.handlers|].message| ==>
      IsLower(b'.handlers[|b.handlers|].message[i])
    ensures reply.None? ==> b'.handlers[|b.handlers|].reply.None?
    ensures reply.Some? && reply.value.One? ==> b'.handlers[|b.handlers|].reply == Some([Lower(reply.value.s)])
    ensures reply.Some? && reply.value.Many? ==> b'.handlers[|b.handlers|].reply == Some(reply.value.items)
  {
    var h := NewHandler(handlerId, Triggers(msg), Replies(reply), hasCallback, channel);
    b.(handlers := b.handlers + [h])
  }

  /** `add_handler_object`: appends a ready-made handler unchanged. */
  function AddHandlerObject(b: Bot, h: Handler): (b': Bot)
    ensures b'.userId == b.userId && b'.fullName == b.fullName
    ensures |b'.handlers| == |b.handlers| + 1
    ensures b'.handlers[..|b.handlers|] == b.handlers
    ensures b'.handlers[|b.handlers|] == h
  {
    b.(handlers := b.handlers + [h])
  }

  /**
   * Registration never displaces an earlier handler: after appending `h`,
   * looking up an id yields the handler found before, and `h` only when
   * no earlier handler had that id.
   */
  lemma {:induction false} GetAfterAdd(b: Bot, h: Handler, handlerId: string)
    ensures GetHandler(AddHandlerObject(b, h).handlers, handlerId) ==
      match GetHandler(b.handlers, handlerId)
      case Some(g) => Some(g)
      case None => if h.handlerId == handlerId then Some(h) else None
  {
    var hs := b.handlers;
    var hs' := AddHandlerObject(b, h).handlers;
    assert hs' == hs + [h];
    match FindHandler(hs, handlerId)
    case Some(i) =>
      assert FirstWithId(hs', handlerId, i);
    case None =>
      if h.handlerId == handlerId {
        assert FirstWithId(hs', handlerId, |hs|);
      }
  }

  /** A handler registered under a fresh id is the one `get_handler` returns for it. */
  lemma AddedHandlerIsFound(b: Bot, handlerId: string, msg: Arg, reply: Option<Arg>,
                            hasCallback: bool, channel: Option<Channel>)
    requires GetHandler(b.handlers, handlerId).None?
    ensures var b' := AddHandler(b, handlerId, msg, reply, hasCallback, channel);
      GetHandler(b'.handlers, handlerId) == Some(b'.handlers[|b.handlers|])
  {
    var b' := AddHandler(b, handlerId, msg, reply, hasCallback, channel);
    GetAfterAdd(b, b'.handlers[|b.handlers|], handlerId);
    assert AddHandlerObject(b, b'.handlers[|b.handlers|]) == b';
  }

  // ---------------------------------------------------------------------
  // Message filter and destination (`watch_message`)
  // ---------------------------------------------------------------------

  /** What `watch_message` does with a message. */
  datatype Watch =
    | Ignored                                  // not considered, or not addressed to the bot
    | Swallowed                                // a needed key was missing; the exception is printed and dropped
    | Dispatch(content: string, dest: Channel) // handed to `parse_message` with this reply channel

  /** The message type, reading a missing "type" key as the empty string. */
  function MessageType(m: Message): string {
    m.msgType.GetOr("")
  }

  /** The two message types the bot looks at. */
  predicate IsChatType(t: string) {
    t == "private" || t == "stream"
  }

  /** The bot's full name in bold, which is how a mention appears in the content. */
  function MentionOf(b: Bot): string {
    "**" + b.fullName + "**"
  }

  /** Every key the reply channel of `m` is built from is present. */
  predicate HasDestinationKeys(m: Message) {
    if MessageType(m) == "private" then m.senderEmail.Some?
    else m.displayRecipient.Some? && m.subject.Some?
  }

  /**
   * `watch_message`: a message is dispatched exactly when its type is
   * "private" or "stream", it was not sent by the bot itself, the keys it
   * needs are present, and it is private or mentions the bot. The reply
   * channel is the sender for a private message and the stream and topic
   * otherwise.
   */
  function WatchMessage(b: Bot, m: Message): (w: Watch)
    ensures w.Dispatch? <==>
      && IsChatType(MessageType(m))
      && m.senderId != b.userId
      && m.content.Some? && HasDestinationKeys(m)
      && (Contains(m.content.value, MentionOf(b)) || MessageType(m) == "private")
    ensures w.Swallowed? <==>
      && IsChatType(MessageType(m))
      && m.senderId != b.userId
      && !(m.content.Some? && HasDestinationKeys(m))
    ensures w.Dispatch? ==> m.content == Some(w.content)
    ensures w.Dispatch? && MessageType(m) == "private" ==> w.dest == Channel(m.senderEmail.value, None)
    ensures w.Dispatch? && MessageType(m) == "stream" ==>
      w.dest == Channel(m.displayRecipient.value, Some(m.subject.value))
  {
    var t := MessageType(m);
    if !IsChatType(t) then Ignored
    else if m.senderId == b.userId then Ignored
    else if m.content.None? then Swallowed
    else
      var text := m.content.value;
      var dest :=
        if t == "private" then
          (if m.senderEmail.None? then None else Some(Channel(m.senderEmail.value, None)))
        else if m.displayRecipient.None? || m.subject.None? then None
        else Some(Channel(m.displayRecipient.value, Some(m.subject.value)));
      if dest.None? then Swallowed
      else if Contains(text, MentionOf(b)) || t == "private" then Dispatch(text, dest.value)
      else Ignored
  }

  // ---------------------------------------------------------------------
  // Matcher (`parse_message`)
  // ---------------------------------------------------------------------

  /** Some trigger of `h` is a substring of `text`: the test at line 146. */
  predicate Fires(h: Handler, text: string) {
    exists i :: 0 <= i < |h.message| && Contains(text, h.message[i])
  }

  /** The inner loop over one handler's triggers: does any of them occur in `text`? */
  function ScanTriggers(triggers: seq<string>, text: string): (r: bool)
    ensures r <==> exists i :: 0 <= i < |triggers| && Contains(text, triggers[i])
  {
    if |triggers| == 0 then false
    else if Contains(text, triggers[0]) then true
    else
      var r := ScanTriggers(triggers[1..], text);
      assert forall i :: 1 <= i < |triggers| ==> triggers[i] == triggers[1..][i - 1];
      r
  }

  /**
   * The equality test at line 150 never adds a match: content equal to a
   * trigger contains that trigger, so the substring test already fired.
   */
  lemma EqualityFallbackRedundant(h: Handler, text: string)
    requires text in h.message
    ensures Fires(h, text)
  {
    var i :| 0 <= i < |h.message| && h.message[i] == text;
    ContainsSelf(text);
  }

  /**
   * The outer loop of `parse_message` over already lower-cased `text`,
   * with both tests as written. Its result is the first handler some
   * trigger of which occurs in `text`, whatever the equality test says.
   */
  function FirstMatch(hs: seq<Handler>, text: string): (r: Option<nat>)
    ensures r.Some? ==>
      && r.value < |hs|
      && Fires(hs[r.value], text)
      && forall j :: 0 <= j < r.value ==> !Fires(hs[j], text)
    ensures r.None? ==> forall j :: 0 <= j < |hs| ==> !Fires(hs[j], text)
  {
    if |hs| == 0 then None
    else if ScanTriggers(hs[0].message, text) then Some(0)
    else if text in hs[0].message then
      EqualityFallbackRedundant(hs[0], text);
      Some(0)
    else match FirstMatch(hs[1..], text)
      case None => None
      case Some(k) => Some(k + 1)
  }

  /**
   * `parse_message`: the handler that fires for `content` is the first, in
   * registration order, having a trigger that is a substring of the
   * lower-cased content; if there is none, nothing fires.
   */
  function ParseMessage(hs: seq<Handler>, content: string): (r: Option<nat>)
    ensures r.Some? ==>
      && r.value < |hs|
      && Fires(hs[r.value], Lower(content))
      && forall j :: 0 <= j < r.value ==> !Fires(hs[j], Lower(content))
    ensures r.None? <==> forall j :: 0 <= j < |hs| ==> !Fires(hs[j], Lower(content))
  {
    FirstMatch(hs, Lower(content))
  }

  /** Matching ignores the case of the content. */
  lemma ParseIgnoresCase(hs: seq<Handler>, content: string)
    ensures ParseMessage(hs, Lower(content)) == ParseMessage(hs, content)
  {
    LowerIdempotent(content);
  }

  // ---------------------------------------------------------------------
  // Reply decision (`run_handler`)
  // ---------------------------------------------------------------------

  datatype Kind = Private | Stream

  /** The dictionary passed to `send_message`. */
  datatype Outgoing = Outgoing(kind: Kind, to: string, subject: Option<string>, content: string)

  /** The exceptions `run_handler` and `trigger_handler` can raise. */
  datatype Failure =
    | EmptyReplies    // `random.choice` on an empty reply list
    | MissingSubject  // a stream channel without a "subject" key
    | UnknownHandler  // `trigger_handler` with an id no handler has

  /** What `run_handler` does. */
  datatype RunResult =
    | Silent                              // nothing to say: returns None, sends nothing
    | NoStream                            // no channel to send to: returns 1
    | Raised(failure: Failure)            // raises before sending
    | Sent(out: Outgoing, handler: Handler) // sends `out`; `handler` is the handler afterwards

  /** Python truthiness of the callback's result. */
  predicate Truthy(v: Option<string>) {
    v.Some? && v.value != ""
  }

  /** The callback's result as `run_handler` sees it: only a handler with a callback has one. */
  function CallbackResult(h: Handler, callback: Option<string>): Option<string> {
    if h.hasCallback then callback else None
  }

  /** `random.choice`: the draw `pick`, reduced to the list's range, selects a reply. */
  function Choose(replies: seq<string>, pick: nat): (r: string)
    requires |replies| > 0
    ensures r in replies
  {
    replies[pick % |replies|]
  }

  /** Every reply can be the one drawn. */
  lemma EveryReplyCanBeChosen(replies: seq<string>, i: nat)
    requires i < |replies|
    ensures exists pick: nat :: Choose(replies, pick) == replies[i]
  {
    assert Choose(replies, i) == replies[i];
  }

  /** The reply channel: the handler's own channel when it has one, else the one passed in. */
  function Target(h: Handler, channel: Option<Channel>): (r: Option<Channel>)
    ensures h.channel.Some? ==> r == h.channel
    ensures h.channel.None? ==> r == channel
  {
    if h.channel.Some? then h.channel else channel
  }

  /**
   * `run_handler`, decision part. `callback` is what the handler's callback
   * returned (`None` also for a raised exception); `pick` is the random draw.
   */
  function RunHandler(h: Handler, channel: Option<Channel>, callback: Option<string>, pick: nat): (r: RunResult)
    // nothing happens exactly when there is no usable reply list and no callback text
    ensures r.Silent? <==>
      (h.reply.None? || h.reply == Some([""])) && !Truthy(CallbackResult(h, callback))
    // a reply is wanted but neither the handler nor the caller names a channel
    ensures r.NoStream? <==> !r.Silent? && h.channel.None? && channel.None?
    // the callback's text wins over the stored replies
    ensures r.Sent? && Truthy(CallbackResult(h, callback)) ==> r.out.content == callback.value
    ensures r.Sent? && !Truthy(CallbackResult(h, callback)) ==> h.reply.Some? && r.out.content in h.reply.value
    // private exactly when the target contains "@"; only stream messages carry a subject
    ensures r.Sent? ==> Target(h, channel).Some? && r.out.to == Target(h, channel).value.to
    ensures r.Sent? ==> (r.out.kind == Private <==> '@' in r.out.to)
    ensures r.Sent? ==> (r.out.kind == Private <==> r.out.subject.None?)
    ensures r.Sent? && r.out.kind == Stream ==> r.out.subject == Target(h, channel).value.subject
    // after sending, the replies are reset to the stored copy and nothing else changes
    ensures r.Sent? ==> r.handler == h.(reply := h.orgReply)
    // the two exceptions
    ensures r == Raised(EmptyReplies) <==>
      !r.Silent? && !r.NoStream? && !Truthy(CallbackResult(h, callback)) && h.reply == Some([])
    ensures r == Raised(MissingSubject) <==>
      && !r.Silent? && !r.NoStream? && r != Raised(EmptyReplies)
      && Target(h, channel).Some?
      && '@' !in Target(h, channel).value.to && Target(h, channel).value.subject.None?
    ensures r != Raised(UnknownHandler)
  {
    var cb := CallbackResult(h, callback);
    if !((h.reply != Some([""]) && h.reply != None) || Truthy(cb)) then Silent
    else
      // the choice `Target` makes, written out here
      var target := if h.channel.Some? then h.channel else channel;
      if target.None? then NoStream
      else if !Truthy(cb) && |h.reply.value| == 0 then Raised(EmptyReplies)
      else
        var content := if Truthy(cb) then cb.value else Choose(h.reply.value, pick);
        var ch := target.value;
        HasCharIff(ch.to, '@');
        if HasChar(ch.to, '@') then
          Sent(Outgoing(Private, ch.to, None, content), h.(reply := h.orgReply))
        else if ch.subject.None? then Raised(MissingSubject)
        else Sent(Outgoing(Stream, ch.to, ch.subject, content), h.(reply := h.orgReply))
  }

  /** With a non-empty reply list, a channel and (for streams) a subject, a reply is always sent. */
  lemma StoredReplyIsSent(h: Handler, channel: Option<Channel>, callback: Option<string>, pick: nat)
    requires h.reply.Some? && |h.reply.value| > 0 && h.reply.value != [""]
    requires Target(h, channel).Some?
    requires '@' in Target(h, channel).value.to || Target(h, channel).value.subject.Some?
    ensures RunHandler(h, channel, callback, pick).Sent?
  {
  }

  // ---------------------------------------------------------------------
  // The pipeline: one incoming message, and `trigger_handler`
  // ---------------------------------------------------------------------

  /** The bot after a step, the handler that fired, and what running it did. */
  datatype Step = Step(bot: Bot, fired: Option<nat>, run: Option<RunResult>)

  /** The handler state after running: the reset replies when sent, otherwise unchanged. */
  function AfterRun(h: Handler, r: RunResult): Handler {
    if r.Sent? then r.handler else h
  }

  /**
   * One incoming message: filter, match, record the message on the handler
   * that fired, and run it with the derived reply channel. Exceptions from
   * running it are swallowed by `watch_message`; they appear as `Raised`.
   */
  function OnMessage(b: Bot, m: Message, callback: Option<string>, pick: nat): (s: Step)
    ensures s.bot.userId == b.userId && s.bot.fullName == b.fullName
    ensures |s.bot.handlers| == |b.handlers|
    ensures s.run.Some? <==> s.fired.Some?
    ensures s.fired.Some? <==>
      WatchMessage(b, m).Dispatch? &&
      exists j :: 0 <= j < |b.handlers| && Fires(b.handlers[j], Lower(WatchMessage(b, m).content))
    ensures s.fired.Some? ==> s.fired.value < |b.handlers| && s.bot.handlers[s.fired.value].received == Some(m)
    ensures s.fired.Some? ==> Fires(b.handlers[s.fired.value], Lower(WatchMessage(b, m).content))
    ensures s.fired.Some? ==>
      forall j :: 0 <= j < s.fired.value ==> !Fires(b.handlers[j], Lower(WatchMessage(b, m).content))
    ensures s.fired.Some? ==>
      s.run == Some(RunHandler(b.handlers[s.fired.value].(received := Some(m)),
                               Some(WatchMessage(b, m).dest), callback, pick))
    ensures s.fired.Some? ==>
      s.bot.handlers[s.fired.value] == AfterRun(b.handlers[s.fired.value].(received := Some(m)), s.run.value)
    ensures forall j :: 0 <= j < |b.handlers| && s.fired != Some(j) ==> s.bot.handlers[j] == b.handlers[j]
    ensures s.run.Some? ==> s.run.value != Raised(UnknownHandler) && !s.run.value.NoStream?
  {
    match WatchMessage(b, m)
    case Dispatch(text, dest) =>
      (match ParseMessage(b.handlers, text)
       case None => Step(b, None, None)
       case Some(k) =>
         var h := b.handlers[k].(received := Some(m));
         var r := RunHandler(h, Some(dest), callback, pick);
         Step(b.(handlers := b.handlers[k := AfterRun(h, r)]), Some(k), Some(r)))
    case _ => Step(b, None, None)
  }

  /** The bot never reacts to its own messages. */
  lemma IgnoresOwnMessages(b: Bot, m: Message, callback: Option<string>, pick: nat)
    requires m.senderId == b.userId
    ensures OnMessage(b, m, callback, pick) == Step(b, None, None)
  {
  }

  /**
   * A private message that fires a handler without a channel of its own is
   * answered privately to the sender, when an answer is due.
   */
  lemma PrivateMessageIsAnsweredPrivately(b: Bot, m: Message, callback: Option<string>, pick: nat)
    requires m.msgType == Some("private") && m.senderId != b.userId
    requires m.content.Some? && m.senderEmail.Some? && '@' in m.senderEmail.value
    requires OnMessage(b, m, callback, pick).fired.Some?
    requires b.handlers[OnMessage(b, m, callback, pick).fired.value].channel.None?
    requires OnMessage(b, m, callback, pick).run.value.Sent?
    ensures var out := OnMessage(b, m, callback, pick).run.value.out;
      out.kind == Private && out.to == m.senderEmail.value && out.subject.None?
  {
    var w := WatchMessage(b, m);
    assert w.dest == Channel(m.senderEmail.value, None);
  }

  /**
   * A stream message that mentions the bot and fires a handler without a
   * channel of its own is answered in the same stream and topic, as long as
   * the stream name has no "@".
   */
  lemma StreamMessageIsAnsweredInTopic(b: Bot, m: Message, callback: Option<string>, pick: nat)
    requires m.msgType == Some("stream") && m.senderId != b.userId
    requires m.content.Some? && m.displayRecipient.Some? && m.subject.Some?
    requires '@' !in m.displayRecipient.value
    requires OnMessage(b, m, callback, pick).fired.Some?
    requires b.handlers[OnMessage(b, m, callback, pick).fired.value].channel.None?
    requires OnMessage(b, m, callback, pick).run.value.Sent?
    ensures var out := OnMessage(b, m, callback, pick).run.value.out;
      out.kind == Stream && out.to == m.displayRecipient.value && out.subject == m.subject
  {
    var w := WatchMessage(b, m);
    assert w.dest == Channel(m.displayRecipient.value, Some(m.subject.value));
  }

  /**
   * `trigger_handler`: runs the first handler with the given id against its
   * own channel. An unknown id raises (attribute access on `None`).
   */
  function TriggerHandler(b: Bot, handlerId: string, callback: Option<string>, pick: nat): (s: Step)
    ensures s.bot.userId == b.userId && s.bot.fullName == b.fullName
    ensures |s.bot.handlers| == |b.handlers|
    ensures s.run.Some?
    ensures s.run == Some(Raised(UnknownHandler)) <==>
      forall j :: 0 <= j < |b.handlers| ==> b.handlers[j].handlerId != handlerId
    ensures s.fired.None? <==> forall j :: 0 <= j < |b.handlers| ==> b.handlers[j].handlerId != handlerId
    ensures s.fired.Some? ==> FirstWithId(b.handlers, handlerId, s.fired.value)
    ensures s.fired.Some? ==>
      s.run == Some(RunHandler(b.handlers[s.fired.value], b.handlers[s.fired.value].channel, callback, pick))
    ensures s.fired.Some? ==>
      s.bot.handlers[s.fired.value] == AfterRun(b.handlers[s.fired.value], s.run.value)
    ensures s.fired.Some? ==>
      (s.run.value.NoStream? <==> !s.run.value.Silent? && b.handlers[s.fired.value].channel.None?)
    ensures forall j :: 0 <= j < |b.handlers| && s.fired != Some(j) ==> s.bot.handlers[j] == b.handlers[j]
  {
    match FindHandler(b.handlers, handlerId)
    case None => Step(b, None, Some(Raised(UnknownHandler)))
    case Some(k) =>
      var h := b.handlers[k];
      var r := RunHandler(h, h.channel, callback, pick);
      Step(b.(handlers := b.handlers[k := AfterRun(h, r)]), Some(k), Some(r))
  }

  /**
   * Registering a handler under a fresh id and then triggering that id runs
   * the new handler against the channel it was registered with.
   */
  lemma TriggerRunsAddedHandler(b: Bot, handlerId: string, msg: Arg, reply: Option<Arg>,
                                hasCallback: bool, channel: Option<Channel>,
                                callback: Option<string>, pick: nat)
    requires GetHandler(b.handlers, handlerId).None?
    ensures var b' := AddHandler(b, handlerId, msg, reply, hasCallback, channel);
      var s := TriggerHandler(b', handlerId, callback, pick);
      && s.fired == Some(|b.handlers|)
      && s.run == Some(RunHandler(b'.handlers[|b.handlers|], channel, callback, pick))
  {
    var b' := AddHandler(b, handlerId, msg, reply, hasCallback, channel);
    AddedHandlerIsFound(b, handlerId, msg, reply, hasCallback, channel);
    assert FirstWithId(b'.handlers, handlerId, |b.handlers|);
  }
}
