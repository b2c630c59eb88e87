# pyzulipbot dispatch, modelled in Dafny

pyzulipbot is a small chat bot runtime for Zulip. A `ZulipBot` keeps a list of
`Handler`s. Each handler pairs trigger phrases with candidate replies, an optional
callback and an optional fixed channel. For each incoming message the bot does four things:

1. decides whether to look at the message at all (`watch_message`);
2. derives the reply channel: the sender for a private message, the stream and topic otherwise;
3. finds the first handler whose trigger occurs in the lower-cased content (`parse_message`);
4. decides whether to answer, with what text and to where (`run_handler`).

This project models that pipeline as pure functions over immutable datatypes:

- `wrappers.dfy`: `Option`.
- `text.dfy`: ASCII lower-casing and Python's substring test `p in s`. The test is written as a left-to-right scan and proved equal to "occurs at some index".
- `handler.dfy`: the `Channel`, `Message` and `Handler` datatypes, `Handler.__init__` and `format_reply`.
- `zulipbot.dfy`:
  - the registry (`get_handler`, `add_handler`, `add_handler_object`);
  - the filter, the matcher and the reply decision;
  - `trigger_handler`;
  - the whole step for one message (`OnMessage`).
- `aliasing.dfy`: the reply-template aliasing issue described under "Findings".

A sent message is returned as an `Outgoing` value. The callback's result and the random
draw are inputs.

The docstring of `watch_message` (pyzulipbot/zulipbot.py:115-116) says that a message is handled when
the bot is tagged in it. The code also handles every private message, tagged or not. The model follows the code.

## Model

| member | source | states |
|---|---|---|
| ZulipBot.GetHandler | pyzulipbot/zulipbot.py:48-51 | the result is the first handler in list order whose id equals the argument; it is None exactly when no handler has that id |
| ZulipBot.FindHandler | pyzulipbot/zulipbot.py:48-51 | the position the lookup stops at holds the id and no earlier position does; no position means no handler has the id |
| ZulipBot.AddHandler | pyzulipbot/zulipbot.py:64-79 | exactly one handler is appended and the earlier ones are unchanged; a string trigger becomes a one-element list of its lower-cased form, and a trigger list has every element lower-cased; a string reply becomes a one-element lower-cased list, and a reply list or None is kept as given; the reply copy equals the replies |
| ZulipBot.AddHandlerObject | pyzulipbot/zulipbot.py:87 | the given handler is appended unchanged at the end and the earlier handlers are unchanged |
| ZulipBot.GetAfterAdd | pyzulipbot/zulipbot.py:48-51 | appending never shadows an earlier handler: after appending, a lookup returns what it returned before, or the new handler only when no earlier handler had the id |
| ZulipBot.AddedHandlerIsFound | pyzulipbot/zulipbot.py:64-79 | a handler added under a fresh id is what the lookup returns for that id |
| ZulipBot.WatchMessage | pyzulipbot/zulipbot.py:119-136 | a message is dispatched iff its type is "private" or "stream", its sender is not the bot, the keys it needs are present, and it is private or contains the bot's name in bold; a missing key inside the try is swallowed; the destination is {to: sender email} for private messages and {to: display_recipient, subject} for stream messages |
| ZulipBot.ScanTriggers | pyzulipbot/zulipbot.py:145-146 | the inner loop reports a hit iff some trigger is a substring of the text |
| ZulipBot.EqualityFallbackRedundant | pyzulipbot/zulipbot.py:150-153 | content equal to a trigger already contains that trigger, so the equality test at line 150 cannot fire unless line 146 already has |
| ZulipBot.FirstMatch | pyzulipbot/zulipbot.py:144-153 | with both tests as written, the selected handler is the first whose trigger is a substring of the text; no handler is selected iff none has such a trigger |
| ZulipBot.ParseMessage | pyzulipbot/zulipbot.py:138-153 | at most one handler fires: the first in list order having a trigger that occurs in the lower-cased content; none fires iff there is no such handler |
| ZulipBot.ParseIgnoresCase | pyzulipbot/zulipbot.py:146-150 | lower-casing the content first does not change which handler fires |
| ZulipBot.Choose | pyzulipbot/zulipbot.py:182 | the randomly chosen reply is an element of the reply list |
| ZulipBot.EveryReplyCanBeChosen | pyzulipbot/zulipbot.py:182 | every element of the reply list is the outcome of some random draw |
| ZulipBot.Target | pyzulipbot/zulipbot.py:176-177 | a handler's own channel overrides the one passed in |
| ZulipBot.RunHandler | pyzulipbot/zulipbot.py:165-204 | it returns None without sending iff the reply list is None or [""] and the callback text is falsy; with no channel it returns 1 (NoStream); a truthy callback text is the content, otherwise the content is an element of the reply list; an empty reply list raises; the message is private iff the target contains "@"; only stream messages carry the subject, and a stream target without a subject raises; after sending the replies are reset to the copy and nothing else changes |
| ZulipBot.StoredReplyIsSent | pyzulipbot/zulipbot.py:175-203 | a non-empty reply list other than [""], a channel, and either "@" in the target or a subject always produce a sent message |
| ZulipBot.OnMessage | pyzulipbot/zulipbot.py:119-204 | a handler fires iff the message is dispatched and some handler's trigger occurs in its lower-cased content; the fired handler is the first such one, and it is run on the channel the filter derived; only the fired handler changes: it records the message, and its replies are reset to the copy when a reply is sent, with every other field kept; the run never ends in NoStream because the derived channel is always present |
| ZulipBot.IgnoresOwnMessages | pyzulipbot/zulipbot.py:121 | a message from the bot's own user id leaves the bot unchanged and sends nothing |
| ZulipBot.PrivateMessageIsAnsweredPrivately | pyzulipbot/zulipbot.py:127-203 | when a reply is sent to a private message that fires a handler without its own channel, and the sender's email contains "@", the reply goes privately to that email, without a subject |
| ZulipBot.StreamMessageIsAnsweredInTopic | pyzulipbot/zulipbot.py:129-203 | when a reply is sent to a stream message that fires a handler without its own channel, and the stream name has no "@", the reply goes to the same stream and topic |
| ZulipBot.TriggerHandler | pyzulipbot/zulipbot.py:30-37 | an unknown id raises and fires nothing; otherwise the first handler with the id fires and is run against its own channel, so it returns 1 iff a reply is due and the handler has no channel; the handler's replies are reset to the copy when a reply is sent, and nothing else changes |
| ZulipBot.TriggerRunsAddedHandler | pyzulipbot/zulipbot.py:30-79 | triggering an id just registered by `add_handler` fires the new handler and runs it against the channel it was registered with |
| Handler.NewHandler | pyzulipbot/zulipbot.py:224-231 | a new handler stores its arguments, its reply copy equals its replies, and it has received nothing |
| Handler.FormatReply | pyzulipbot/zulipbot.py:233-234 | only element 0 of the replies changes, to its formatted form; the length and every other element are kept; a missing or empty reply list is an error |
| Text.Lower | pyzulipbot/zulipbot.py:71-76 | lower-casing keeps the length, maps each character on its own, and leaves no upper-case letter |
| Text.LowerIdempotent | pyzulipbot/zulipbot.py:146 | lower-casing already lower-cased content changes nothing |
| Text.ContainsIff | pyzulipbot/zulipbot.py:146 | the substring scan succeeds iff the pattern occurs at some index of the text |
| Text.HasCharIff | pyzulipbot/zulipbot.py:186 | the test `"@" in to` is character membership |
| Aliasing.FormatReplyAliased | pyzulipbot/zulipbot.py:224-234 | as written, after formatting the reply copy is the same list as the replies, with element 0 formatted, the other elements kept and every other field unchanged |
| Aliasing.AliasedResetKeepsFormatting | pyzulipbot/zulipbot.py:204 | as written, the reset after sending leaves the formatted replies in place |
| Aliasing.AliasedTemplateIsLost | pyzulipbot/zulipbot.py:227-234 | as written, "hello {}" formatted to "hello bob" and sent stays "hello bob" |
| Aliasing.FormatThenSendRestoresTemplate | pyzulipbot/zulipbot.py:218-228 | with the copy kept separate, formatting and then sending returns the handler to exactly its prior state |
| Aliasing.TemplateIsRestored | pyzulipbot/zulipbot.py:218-234 | with the copy kept separate, "hello {}" is back after "hello bob" has been sent |

## Left out

- The chat client (`zulip.Client`, `get_profile`, `send_message`, `call_on_each_message`) is an external library. The bot's profile is two fields of `Bot`, and a send is the returned `Outgoing` value.
- The listener thread (lines 22-25) is concurrency plumbing with no decision logic.
- `add_handler_json` reads a file and parses JSON. Its loops only rebind a local variable, so for well-formed input it reduces to `add_handler`, which is modelled; on the first malformed item it stops (lines 106-109).
- The debug flag and every `print` produce output only.
- `random.choice` is the input `pick`, reduced modulo the list length. `EveryReplyCanBeChosen` shows that no reply is out of reach.
- A user callback (`handler.run`) is the input `callback`; an exception inside it reads as `None`. Results other than strings, which `str()` would convert (a truthy `42` is sent as "42"), are not modelled.
- `str.format` is the parameter `format` of `FormatReply`. Its own errors, such as too few arguments, are not modelled.
- Text.Lower: maps only ASCII A-Z. Python's `str.lower` also maps non-ASCII letters, sometimes to more than one character.
- WatchMessage: the "sender_id" key is read outside the try, so a missing one propagates to the client library. The model assumes it is present. A channel without a "to" key is not modelled either.
- AddHandler: a `msg` of None (a TypeError in `len`) and elements of other types are not modelled. Neither is the in-place lower-casing of the caller's list object.
- OnMessage: the handler's `received` field stores the message without the "stream" key that `watch_message` adds to the dictionary.
- ZulipBot.RunHandler: a channel is always a dictionary with a string "to" and, if present, a string "subject". A string channel, which the `add_handler` docstring (line 61) allows, raises a TypeError at line 186 in the program; that case is not modelled. A "subject" key holding None, which `str()` at line 194 sends as the text "None", is not modelled either: a `None` subject here means the key is missing and gives `MissingSubject`.
- Handler.FormatReply: leaves `orgReply` unchanged, as the documented copy demands. In the program `org_reply` is the same list as `reply`, so line 234 rewrites it too; that as-written behaviour is `Aliasing.FormatReplyAliased`.
- Handler values are immutable, so `reply` and `org_reply` are independent everywhere except in `aliasing.dfy`. There, the one shared list object of the program is modelled as two fields that are always equal.

## Findings

| source | as written | input that shows it | evidently intended | confidence | as-written member | corrected member |
|---|---|---|---|---|---|---|
| pyzulipbot/zulipbot.py:227-228 | `reply` and `org_reply` are the same list, and `format_reply` assigns into it, so the reset at line 204 restores nothing | a handler with replies ["hello {}"]; `format_reply("bob")`, then one reply is sent; the replies are still ["hello bob"] | `org_reply` is a separate copy (as the docstring at line 218 describes), so after sending the replies are ["hello {}"] again | high; not executed | Aliasing.AliasedTemplateIsLost | Aliasing.TemplateIsRestored |
