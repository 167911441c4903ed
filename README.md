# A verified model of the media-gate Telegram bot (`don.py`)

The bot hands out media bundles by code. A user opens `/start CODE`, usually
from a deep link. The bot checks that the user is a member of every required
group or channel. If the user is missing from any of them, the bot sends a
join prompt. That prompt has one button per group link and a "check again"
button whose callback data is `check_join:CODE`.

Once access is granted, `send_media` does the delivery:

- It looks up the upper-cased code.
- It sends a reminder that the content will disappear in N minutes.
- It sends every item of the bundle. Photos and videos go out as spoilers, and the bundle caption goes on the first item only.
- It ends with a promotional message.

The reminder and every item whose send succeeded have their deletion
scheduled after the configured delay. The not-found notice, failed sends and
the promotional message are not scheduled for deletion.

The owner builds a bundle in three steps:

1. Open a capture session with `p` or `save`.
2. Send photos, videos, documents or texts.
3. Send `done`. The captured items are committed under a freshly drawn six-character code over `A–Z0–9`.

The owner can also change the delay with `/set_delay MINUTES`. Required groups
are added and removed with `/addgroup ID LINK` and `/delgroup ID`.

The model is organised as follows:

- **Model** (`model.dfy`): the values.
  - Items, bundles, groups and membership-query results.
  - The messages and notices the bot sends.
  - The events of the transport log.
  - The scripted replies of send calls.
- **Text** (`text.dfy`): the Python string handling the handlers rely on.
  - `str.split()` with Python's whitespace set.
  - `data.split(":")[1]`.
  - ASCII `str.upper()`.
  - `int()` on ASCII digits with a sign and underscores, and `str()` as its inverse.
- **CodeGen** (`codegen.dfy`): `gen_code`.
  - The random choices are an input stream of alphabet indices.
  - `FirstFresh` is the retry loop as a function.
  - `GenCode` is the loop itself, proved equal to `FirstFresh`.
- **Gate** (`gate.dfy`): `not_joined`, one query result per group, failing closed.
- **Delivery** (`delivery.dfy`): the transport calls of `send_single_media`, `send_media`, `start_cmd` and `cb_check`.
  - Each is a function of the store, the delay, the gate's answer and the replies.
  - Three views of a log are used to state what was sent and what will be deleted: the messages, the scheduled deletions, and the delivered expiring messages.
- **Capture** (`capture.dfy`): what `handle_media_save` makes of one message, and the bundle that `done_save_cmd` commits.
- **Admin** (`admin.dfy`): argument parsing of the three owner commands, and the group-list operations behind them.
- **Transport** (`transport.dfy`): the `Outbox` class.
  - It keeps the log of calls made to the messaging service.
  - It keeps the script of replies its send calls get. Once the script is exhausted, every send fails.
- **Handlers** (`bot.dfy`): the `Bot` class.
  - Its fields are the bot's mutable state: the media store, the group list, the capture sessions, the set of users, and the delete delay.
  - It has one method per handler. Each method is proved to log exactly what the Delivery, Capture and Admin functions say, and to change only the fields the source changes.
  - `is_owner` is the predicate `Bot.IsOwner`, which guards the owner commands.
- **Lifecycle** (`lifecycle.dfy`): properties across components.
  - An issued code is already upper case and is a single colon-free word, so it survives the deep link and the recheck button.
  - A committed bundle is delivered as it was captured.
  - `/start` prompts to join exactly when some group's query fails.

Where the system's written design and `don.py` disagree, the model follows the code:

- The bundle caption is taken from the **last** captured item (`payload_list[-1]`, line 250). The design says the first non-empty caption.
- The code has no second store and no tier selection.
- `done` commits any non-empty session. The design requires at least two items.
- The join prompt always lists **every** required group, not only the missing ones.

## Model

| member | source | states |
|---|---|---|
| CodeGen.GenCode | don.py:76-82 | returns the first candidate of the draw stream that is not a key of the store (the retry loop's answer), which is a code of the requested length over A–Z0–9 and not yet used; None only if the stream runs out |
| CodeGen.FirstFresh | don.py:79-82 | the retry loop as a function of the draw stream: the first candidate, `length` draws at a time, that is not already a key; its properties are the FirstFresh lemmas below |
| CodeGen.DrawCandidate | don.py:80 | one candidate is the alphabet characters at the next `length` draws, in order |
| CodeGen.FirstFreshSound | don.py:76-82 | any code the retry loop returns has the requested length, uses only the 36 characters, and is not taken |
| CodeGen.FirstFreshNone | don.py:79-82 | the loop finds nothing exactly when every candidate of the stream is taken (both directions) |
| CodeGen.FirstFreshFirst | don.py:79-82 | the code returned is the first untaken candidate: every earlier candidate was taken |
| Gate.NotJoined | don.py:93-107 | returns the groups, in list order, whose membership query raised or answered "left" or "kicked"; every returned group is a required group |
| Gate.Fails | don.py:100-106 | a query fails when it raised or answered "left" or "kicked" |
| Gate.Missing | don.py:96-106 | the groups, in list order, whose query fails; the lemmas below and NotJoined state what it returns |
| Gate.FailingIndicesExact | don.py:96-106 | the failing positions are listed once each, in increasing order, and a position is listed iff its query fails |
| Gate.MissingByIndex | don.py:96-106 | the j-th missing group is the required group at the j-th failing position |
| Gate.GrantedIff | don.py:93-107 | nothing is missing iff every query answered with a status other than "left"/"kicked"; an empty group list always grants |
| Delivery.Render | don.py:127-142 | every item is sent as a message of an expiring kind (the kinds whose deletion `send_single_media` schedules) and never as a reminder, notice, prompt or promotion; a photo, video or document keeps its kind and file id and carries the given caption, photos and videos as spoilers; a text item sends its own text, or the given caption when its text is empty |
| Delivery.ItemLog | don.py:127-150 | `send_single_media`: one send of the rendered item, then a deletion at the current delay iff the send succeeded |
| Delivery.CaptionFor | don.py:169 | `cap if i == 0 else None`: the bundle caption goes on item 0 only |
| Delivery.ItemsLog | don.py:168-170 | the payload loop: item i is sent with the bundle caption iff i == 0 and gets the i-th reply |
| Delivery.BundleLog | don.py:160-186 | a found bundle: the reminder (a failed reminder ends the call), its deletion, the items, the promotion |
| Delivery.SendMediaLog | don.py:152-186 | `send_media`: the not-found notice for an unknown upper-cased code, the bundle's calls otherwise |
| Delivery.Links | don.py:112-114 | the join prompt lists one link per required group, in list order |
| Delivery.StartArgument | don.py:197 | the second word of the `/start` text, or "" |
| Delivery.StartLog | don.py:197-208 | `start_cmd`: the join prompt when some group is missing, otherwise the delivery of a non-empty code or the usage hint |
| Delivery.CheckJoinLog | don.py:212-225 | `cb_check`: an alert when some group is missing, otherwise the answer, the prompt's deletion and the delivery of a non-empty code |
| Delivery.ItemsLogShape | don.py:127-170 | the payload loop sends every item in stored order with the caption on item 0 only, and schedules deletion at the current delay for exactly the items whose send succeeded |
| Delivery.BundleLogViews | don.py:152-186 | for a found bundle whose reminder goes out: reminder, items, promotional message in that order; deletion for the reminder and each delivered item; the promotional message is the last call |
| Delivery.KnownCodeDelivery | don.py:152-186 | the same for `send_media` on any code whose upper-cased form is a key |
| Delivery.DeletionsExactlyExpiring | don.py:127-186 | for every request, deletions are scheduled for exactly the delivered expiring messages, in send order, at the delay in force; the not-found notice and the promotion are never deleted |
| Delivery.StartArgumentOfLink | don.py:197 | `/start CODE` hands the code back as the argument |
| Delivery.StartWithoutArgument | don.py:197 | `/start` alone or followed only by whitespace has argument "" |
| Delivery.AllSpaceHasNoWords | don.py:197 | a string of whitespace splits into no words |
| Text.WordsOfLine | don.py:197 | words joined by single spaces split back into exactly those words |
| Text.Words | don.py:197 | `str.split()`: the maximal runs of non-whitespace characters, in order |
| Text.ParseInt | don.py:306 | `int()` on an optional sign and ASCII digits with single underscores between digits; None otherwise |
| Text.CallbackCode | don.py:212 | the part of the callback data between the first and the second colon, or "" without a colon |
| Text.ParseIntRoundTrip | don.py:306 | `int(str(n)) == n` for every integer, and `str(n)` is one word |
| Text.Upper | don.py:154 | upper-casing keeps the length and maps every character by ASCII upper-casing |
| Text.CallbackCodeRoundTrip | don.py:212 | the recheck data `check_join:CODE` reads back as CODE for every colon-free code, including "" |
| Capture.CaptureItem | don.py:265-290 | a message yields an item exactly when it has content; the item holds that content and carries a caption iff the message's caption is non-empty |
| Capture.CapturePriority | don.py:274-283 | the content kind is chosen in the order photo, video, document, non-empty text; each kind only when every kind before it is absent |
| Capture.CaptureContent | don.py:273-284 | the content of a message: last photo size, video, document or non-empty text, in that order of priority |
| Capture.CaptionOrEmpty | don.py:273 | `m.caption or ""`: a missing caption reads as the empty string |
| Capture.CapturedAreSessionItems | don.py:265-290 | every item a session accumulates has no caption or a non-empty one |
| Capture.ClearCaptions | don.py:251-253 | clearing keeps the items, their content and order, sets every present caption key to None and leaves no caption text |
| Capture.ClearItem | don.py:252-253 | an item with a caption key gets that key set to None; an item without one is left as it is |
| Capture.CaptionText | don.py:250 | `.get("caption", "")` on an item not yet cleared: its caption, or "" when it has no caption key |
| Capture.Commit | don.py:250-256 | the stored bundle: the last item's caption (or "") and the items with their captions cleared |
| Capture.CommitOfCaptured | don.py:249-290 | the committed bundle's caption is the caption of the last message that produced an item (or ""), and the captions of earlier messages are dropped |
| Handlers.Bot.constructor | don.py:32-73 | the loaded store, groups, users and delay, with no capture session open |
| Handlers.Bot.IsOwner | don.py:84-90 | a user is the owner iff the id equals the configured owner id |
| Handlers.Bot.SendSingleMedia | don.py:127-150 | one send of the rendered item; on success the message id is returned and its deletion is scheduled at the current delay; on failure None and nothing scheduled |
| Handlers.Bot.SendMedia | don.py:152-186 | logs exactly the calls `send_media` makes: the not-found notice quoting the code as typed, or the found bundle's calls; consumes one reply per send |
| Handlers.Bot.SendBundle | don.py:160-186 | the reminder with the delay in minutes (a failed reminder aborts), its deletion, the items, and the promotion |
| Handlers.Bot.SendItems | don.py:168-170 | the payload loop's calls, item i with the caption iff i == 0 |
| Handlers.Bot.Start | don.py:189-208 | records the user; with a group missing sends only the join prompt listing every group link and carrying the code; otherwise delivers the code or sends the usage hint |
| Handlers.Bot.CheckJoin | don.py:210-225 | with a group missing answers with an alert and does nothing else; otherwise answers, deletes the prompt and delivers the carried code if non-empty |
| Handlers.Bot.Recheck | don.py:218-225 | the granted branch of `cb_check`: answers, deletes the prompt and delivers the code if non-empty, logging exactly CheckJoinLog |
| Handlers.Bot.PromptSave | don.py:228-234 | the owner's session is reset to empty and the instructions sent; anyone else changes nothing |
| Handlers.Bot.HandleMediaSave | don.py:265-290 | with an open session a message carrying content appends its item; otherwise the sessions are unchanged |
| Handlers.Bot.ClearAll | don.py:251-253 | the clearing loop's result is the cleared item list |
| Handlers.Bot.DoneSave | don.py:236-263 | ignored without an owner session; an empty session is closed with a notice; otherwise the items are stored, captions cleared and the last item's caption as bundle caption, under a fresh code not yet in the store, the code is reported and the session closed |
| Handlers.Bot.SetDelay | don.py:293-315 | no argument shows minutes and seconds; a non-integer or non-positive argument is refused; m > 0 sets the delay to 60·m seconds and reports it; non-owners change nothing |
| Handlers.Bot.AddGroup | don.py:359-384 | fewer than two arguments or a non-integer id is refused; an existing id is refused; otherwise the group is appended as fixed and the new total reported; unique ids stay unique |
| Handlers.Bot.DelGroup | don.py:386-411 | a missing or non-integer id is refused; an id not present is reported; otherwise every group with the id is removed, the rest kept, and the remaining count reported; unique ids stay unique |
| Admin.ParseSetDelay | don.py:297-315 | a minutes value is only ever produced when positive |
| Admin.SetDelayOfNumber | don.py:297-315 | `/set_delay N` sets N minutes iff N > 0, and is refused otherwise |
| Admin.SetDelayAlone | don.py:298-302 | `/set_delay` alone shows the current delay |
| Admin.AddGroupOfArguments | don.py:364-374 | `/addgroup ID LINK` reads back exactly the id and the link |
| Admin.DelGroupOfArgument | don.py:391-399 | `/delgroup ID` reads back exactly the id |
| Admin.ParseAddGroup | don.py:364-374 | fewer than three words shows the usage, a non-integer id is refused, otherwise the id and the link |
| Admin.ParseDelGroup | don.py:391-399 | fewer than two words shows the usage, a non-integer id is refused, otherwise the id |
| Admin.HasGroup | don.py:377 | `any(g['id'] == gid for g in required_groups)`: some required group has the id |
| Admin.RemoveGroup | don.py:404 | the groups without the given id, in order; RemoveGroupSpec states what it keeps |
| Admin.RemoveGroupSpec | don.py:401-405 | removal keeps exactly the groups whose id differs, each as often as it occurred (multiset counts), in order (a subsequence), and drops every group with the id; it shortens the list iff the id is present, and leaves it unchanged otherwise |
| Admin.RemoveKeepsUnique | don.py:401-409 | removal keeps ids unique |
| Admin.AddKeepsUnique | don.py:377-383 | appending a group whose id is absent keeps ids unique and makes the id present |
| Transport.Outbox.Send | don.py:130-141 | a send gets the next scripted reply (failure once exhausted) and is logged with it |
| Transport.Outbox.Notify | don.py:234 | a command reply is logged and consumes no scripted reply |
| Transport.Outbox.ScheduleDelete | don.py:148 | a scheduled deletion is logged with its message and delay and consumes no reply |
| Transport.Outbox.AnswerCallback | don.py:215-218 | a callback answer is logged with whether it is an alert and consumes no reply |
| Transport.Outbox.Delete | don.py:219-222 | a deletion is logged and consumes no reply |
| Lifecycle.UpperOfCode | don.py:154 | every issued code is its own upper-cased form, so the lookup finds it |
| Lifecycle.CodeIsWord | don.py:78 | an issued code is one word without a colon |
| Lifecycle.RenderedIgnoresCaptions | don.py:251-253 | clearing the item captions changes nothing that is sent |
| Lifecycle.CommittedBundleDelivery | don.py:249-256 | fetching a just-committed code sends the reminder, every captured item in capture order with the LAST item's caption on the first, and the promotion; deletion for the reminder and each delivered item |
| Lifecycle.DeepLinkArgument | don.py:260 | the deep link `/start CODE` of an issued code yields that code |
| Lifecycle.DeepLinkDelivers | don.py:189-206 | a granted `/start CODE` for an issued code makes exactly the calls `send_media` makes for it |
| Lifecycle.RecheckDelivers | don.py:210-225 | the recheck of a prompt for CODE, once granted, answers, deletes the prompt and delivers CODE, and only that |
| Lifecycle.NoPromptInDelivery | don.py:152-186 | no message of the delivery path is a join prompt |
| Lifecycle.StartGated | don.py:189-202 | `/start` sends a join prompt iff some group query fails; the prompt is then the only message, lists every group link, and is never scheduled for deletion |

## Left out

- Keyboard layout and message wording: the join prompt is modelled as its list of links and the carried code, and the promotional keyboard as one constant message.
- File persistence (`load_json`, `save_json`): the store, groups, users and delay are fields. The groups field stands for the contents of the groups file, which `not_joined`, `addg` and `delg` reload. Failed writes are not modelled.
- Interleaving of handlers: each handler method runs to completion before another starts, whereas the source's handlers are coroutines that can interleave at every `await`. Two consequences are not captured. First, `send_media` reads `DELETE_DELAY` again for each item (lines 148 and 165), so a `/set_delay` handled during a delivery changes the delay of the later items; Delivery.DeletionsExactlyExpiring and the delay clauses assume one delay for the whole delivery. Second, `done_save_cmd` awaits its confirmation (line 262) before `del USER_STATE` (line 263), and the session list is the same object as the stored `payload`; a media message handled during that reply is appended to the stored bundle, whereas DoneSave commits exactly the captured items.
- Asyncio timing: a scheduled deletion is logged with its delay, and the actual deletion later is not modelled.
- `broadcast_cmd`, `listg`, `join_keyboard`'s markup, `init_me`, `runner` and the environment parsing of `BOT_TOKEN`/`OWNER_ID` are not part of this model.
- Failures of command replies (`reply_to`), `answer_callback_query` and `delete_message`: they are logged as always succeeding. A failing confirmation in `done_save_cmd` would leave the session open and aliased to the stored payload, and this is not modelled.
- Dispatch: which handler a message reaches (the `p`/`save`/`done` text filters and registration order) is not modelled. Each handler is a method the caller chooses. In the source, `handle_media_save` is registered before the admin commands, so it captures them as text items while a session is open.
- Text.Upper: only ASCII letters are upper-cased. Python's `str.upper()` also maps other Unicode letters, and that changes which key a non-ASCII code looks up.
- Text.ParseInt: accepts ASCII digits only. Python's `int()` also accepts other Unicode decimal digits and surrounding whitespace. Surrounding whitespace cannot occur after `split()`.
- Handlers.Bot.DoneSave: requires that the draw stream yields a code not in the store. `gen_code` loops until it finds one, and the model does not capture a loop that never ends.
- Handlers.Bot.Start, Handlers.Bot.CheckJoin: take one membership-query result per required group as input, instead of querying the network.
- Loaded data of arbitrary shape (JSON values that are not bundles, groups or integers) is not modelled. The store holds well-formed bundles.
- The random choice is an input stream of alphabet indices rather than a random source.
