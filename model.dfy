/** Values the bot keeps and exchanges: stored media, required groups,
    membership probe results, and the events its transport is asked to
    perform. */
module Model {

  datatype Option<+T> = None | Some(value: T)

  /** What one captured message holds: the media kind with its file handle,
      or the text of a plain text message. */
  datatype Content =
    | PhotoFile(fileId: string)
    | VideoFile(fileId: string)
    | DocumentFile(fileId: string)
    | TextBody(text: string)

  /** The `caption` key of a stored item: absent, holding a string, or
      present with the value None (which is what committing a bundle
      leaves behind). */
  datatype Caption = NoCaption | Captioned(text: string) | ClearedCaption

  datatype Item = Item(content: Content, caption: Caption)

  /** One entry of the media store: the bundle caption and its items. */
  datatype Bundle = Bundle(caption: string, payload: seq<Item>)

  /** A required group or channel. */
  datatype Group = Group(id: int, link: string, fixed: bool)

  /** The outcome of one membership query: the member status the server
      reported, or a query that raised. */
  datatype Probe = Status(status: string) | ProbeFailed

  /** The outcome of one send call: the id of the message sent, or an
      exception. */
  datatype Reply = Delivered(messageId: int) | Failed

  /** Messages the delivery path sends. */
  datatype Outgoing =
    | JoinPrompt(links: seq<string>, code: string)  // "join everything first": a button per group link and a recheck action carrying the code
    | Usage                             // "send /start CODE"
    | NotFound(code: string)            // the code as the user typed it
    | Reminder(minutes: nat)            // "this disappears in N minutes"
    | Photo(fileId: string, caption: Option<string>, spoiler: bool)
    | Video(fileId: string, caption: Option<string>, spoiler: bool)
    | Document(fileId: string, caption: Option<string>)
    | Text(body: Option<string>)
    | Promo                             // the closing promotional keyboard
  {
    /** The messages whose deletion the delivery path schedules. */
    predicate Expiring() {
      Reminder? || Photo? || Video? || Document? || Text?
    }
  }

  /** Replies to the owner's commands. */
  datatype Notice =
    | SaveInstructions
    | NothingCaptured
    | Saved(code: string)
    | DelayUsage(minutes: nat, seconds: nat)
    | DelaySet(minutes: nat, seconds: nat)
    | DelayInvalid
    | AddGroupUsage
    | AddGroupBadId
    | GroupExists(gid: int)
    | GroupAdded(gid: int, total: nat)
    | DelGroupUsage
    | DelGroupBadId
    | GroupNotFound(gid: int)
    | GroupRemoved(gid: int, remaining: nat)

  /** One entry of the transport log. */
  datatype Event =
    | Sent(chat: int, message: Outgoing, reply: Reply)
    | Replied(chat: int, notice: Notice)
    | DeleteScheduled(chat: int, messageId: int, delay: nat)
    | CallbackAnswered(callbackId: string, alert: bool)
    | Deleted(chat: int, messageId: int)

  /** The reply the transport gives to the k-th send from now; once its
      script is exhausted every send fails. */
  function ReplyAt(script: seq<Reply>, k: nat): Reply {
    if k < |script| then script[k] else Failed
  }

  /** The script left after k sends. */
  function Drop(script: seq<Reply>, k: nat): (r: seq<Reply>)
    ensures |r| == if k <= |script| then |script| - k else 0
  {
    if k <= |script| then script[k..] else []
  }

  lemma ReplyAtDrop(script: seq<Reply>, k: nat, j: nat)
    ensures ReplyAt(Drop(script, k), j) == ReplyAt(script, k + j)
  {
  }

  lemma DropDrop(script: seq<Reply>, k: nat, j: nat)
    ensures Drop(Drop(script, k), j) == Drop(script, k + j)
  {
  }
}
