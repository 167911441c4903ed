/** Delivery (`send_single_media`, `send_media`, and what `start_cmd` and
    `cb_check` send): the transport calls one request makes, as a function
    of the store, the delay in force, the request and the scripted
    replies. The Bot class performs these calls; its methods are proved to
    log exactly what these functions say. */
module Delivery {

  import opened Model
  import opened Text

  // ---- what is sent ----

  /** The send call `send_single_media` makes for an item with caption
      `cap`: photos and videos go out as spoilers, a text item sends its
      text, or `cap` when the text is empty. The item's own caption key is
      not used. */
  function Render(item: Item, cap: Option<string>): (m: Outgoing)
    ensures m.Expiring() && !m.Reminder?
    ensures item.content.PhotoFile? <==> m.Photo?
    ensures item.content.VideoFile? <==> m.Video?
    ensures item.content.DocumentFile? <==> m.Document?
    ensures (m.Photo? || m.Video?) ==> m.spoiler && m.caption == cap && m.fileId == item.content.fileId
    ensures m.Document? ==> m.caption == cap && m.fileId == item.content.fileId
    ensures item.content.TextBody? ==>
              m.Text? && m.body == (if item.content.text != "" then Some(item.content.text) else cap)
  {
    match item.content
    case VideoFile(f) => Video(f, cap, true)
    case PhotoFile(f) => Photo(f, cap, true)
    case DocumentFile(f) => Document(f, cap)
    case TextBody(t) => Text(if t != "" then Some(t) else cap)
  }

  /** The caption item i of a bundle is sent with. */
  function CaptionFor(i: nat, cap: string): Option<string> {
    if i == 0 then Some(cap) else None
  }

  /** `send_single_media`: one send, then a scheduled deletion at the
      current delay if the send succeeded. */
  function ItemLog(chat: int, item: Item, cap: Option<string>, delay: nat, reply: Reply): seq<Event> {
    [Sent(chat, Render(item, cap), reply)] +
    (if reply.Delivered? then [DeleteScheduled(chat, reply.messageId, delay)] else [])
  }

  /** The loop of `send_media` over the payload: item i gets the i-th of
      `replies`. */
  function ItemsLog(chat: int, items: seq<Item>, cap: string, delay: nat, replies: seq<Reply>): seq<Event>
    decreases |items|
  {
    if items == [] then []
    else
      var n := |items| - 1;
      ItemsLog(chat, items[..n], cap, delay, replies) +
      ItemLog(chat, items[n], CaptionFor(n, cap), delay, ReplyAt(replies, n))
  }

  /** `send_media(chat_id, code)`. The code is upper-cased for the lookup;
      an unknown code gets one not-found message quoting the code as
      typed. */
  function SendMediaLog(media: map<string, Bundle>, delay: nat, chat: int, code: string, script: seq<Reply>): seq<Event> {
    var key := Upper(code);
    if key !in media then [Sent(chat, NotFound(code), ReplyAt(script, 0))]
    else BundleLog(chat, media[key], delay, script)
  }

  /** `send_media` for a code that was found: the reminder (whose failure
      aborts the handler), its scheduled deletion, the items, and the
      promotional message. */
  function BundleLog(chat: int, b: Bundle, delay: nat, script: seq<Reply>): seq<Event> {
    var r := ReplyAt(script, 0);
    var reminder := Sent(chat, Reminder(delay / 60), r);
    if r.Failed? then [reminder]
    else
      [reminder, DeleteScheduled(chat, r.messageId, delay)] +
      ItemsLog(chat, b.payload, b.caption, delay, Drop(script, 1)) +
      [Sent(chat, Promo, ReplyAt(script, 1 + |b.payload|))]
  }

  /** How many scripted replies `send_media` consumes. */
  function SendMediaCalls(media: map<string, Bundle>, code: string, script: seq<Reply>): nat {
    var key := Upper(code);
    if key !in media || ReplyAt(script, 0).Failed? then 1 else 2 + |media[key].payload|
  }

  /** `m.text.split()[1] if len(m.text.split()) > 1 else ""`. */
  function StartArgument(text: string): string {
    var w := Words(text);
    if |w| > 1 then w[1] else ""
  }

  /** The join buttons of `join_keyboard`: the link of every required
      group, in list order, whether or not the user has joined it. */
  function Links(groups: seq<Group>): (ls: seq<string>)
    ensures |ls| == |groups|
    ensures forall i :: 0 <= i < |groups| ==> ls[i] == groups[i].link
  {
    seq(|groups|, i requires 0 <= i < |groups| => groups[i].link)
  }

  /** `start_cmd` after the gate has answered with `missing`: a join prompt
      carrying the code; otherwise the bundle, or the usage hint when no
      code was given. */
  function StartLog(media: map<string, Bundle>, delay: nat, groups: seq<Group>, missing: seq<Group>,
                    chat: int, code: string, script: seq<Reply>): seq<Event> {
    if missing != [] then [Sent(chat, JoinPrompt(Links(groups), code), ReplyAt(script, 0))]
    else if code != "" then SendMediaLog(media, delay, chat, code, script)
    else [Sent(chat, Usage, ReplyAt(script, 0))]
  }

  function StartCalls(media: map<string, Bundle>, missing: seq<Group>, code: string, script: seq<Reply>): nat {
    if missing != [] || code == "" then 1 else SendMediaCalls(media, code, script)
  }

  /** `cb_check` after the gate has answered: an alert and nothing else
      while a group is missing; otherwise the callback is answered, the
      join prompt deleted, and the carried code (if any) delivered. */
  function CheckJoinLog(media: map<string, Bundle>, delay: nat, missing: seq<Group>, callbackId: string,
                        chat: int, promptId: int, code: string, script: seq<Reply>): seq<Event> {
    if missing != [] then [CallbackAnswered(callbackId, true)]
    else
      [CallbackAnswered(callbackId, false), Deleted(chat, promptId)] +
      (if code != "" then SendMediaLog(media, delay, chat, code, script) else [])
  }

  function CheckJoinCalls(media: map<string, Bundle>, missing: seq<Group>, code: string, script: seq<Reply>): nat {
    if missing != [] || code == "" then 0 else SendMediaCalls(media, code, script)
  }

  // ---- views of a log ----

  /** The messages sent, in order. */
  function Messages(log: seq<Event>): seq<Outgoing>
    decreases |log|
  {
    if log == [] then []
    else
      var n := |log| - 1;
      Messages(log[..n]) + (if log[n].Sent? then [log[n].message] else [])
  }

  /** The message ids whose deletion was scheduled, in order. */
  function Scheduled(log: seq<Event>): seq<int>
    decreases |log|
  {
    if log == [] then []
    else
      var n := |log| - 1;
      Scheduled(log[..n]) + (if log[n].DeleteScheduled? then [log[n].messageId] else [])
  }

  /** The ids of the messages that were delivered and are of an expiring
      kind (the reminder and the media items), in order. */
  function ExpiringDelivered(log: seq<Event>): seq<int>
    decreases |log|
  {
    if log == [] then []
    else
      var n := |log| - 1;
      var e := log[n];
      ExpiringDelivered(log[..n]) +
      (if e.Sent? && e.reply.Delivered? && e.message.Expiring() then [e.reply.messageId] else [])
  }

  /** Every deletion in the log is scheduled at `delay`. */
  predicate DelaysAre(log: seq<Event>, delay: nat) {
    forall k :: 0 <= k < |log| && log[k].DeleteScheduled? ==> log[k].delay == delay
  }

  /** Each view of a log is the views of its parts, concatenated. */
  lemma ViewsAppend(a: seq<Event>, b: seq<Event>)
    ensures Messages(a + b) == Messages(a) + Messages(b)
    ensures Scheduled(a + b) == Scheduled(a) + Scheduled(b)
    ensures ExpiringDelivered(a + b) == ExpiringDelivered(a) + ExpiringDelivered(b)
  {
    MessagesAppend(a, b);
    ScheduledAppend(a, b);
    ExpiringAppend(a, b);
  }

  lemma {:induction false} MessagesAppend(a: seq<Event>, b: seq<Event>)
    ensures Messages(a + b) == Messages(a) + Messages(b)
    decreases |b|
  {
    if b == [] {
      assert a + b == a;
    } else {
      var n := |b| - 1;
      assert (a + b)[..|a + b| - 1] == a + b[..n];
      MessagesAppend(a, b[..n]);
    }
  }

  lemma {:induction false} ScheduledAppend(a: seq<Event>, b: seq<Event>)
    ensures Scheduled(a + b) == Scheduled(a) + Scheduled(b)
    decreases |b|
  {
    if b == [] {
      assert a + b == a;
    } else {
      var n := |b| - 1;
      assert (a + b)[..|a + b| - 1] == a + b[..n];
      ScheduledAppend(a, b[..n]);
    }
  }

  lemma {:induction false} ExpiringAppend(a: seq<Event>, b: seq<Event>)
    ensures ExpiringDelivered(a + b) == ExpiringDelivered(a) + ExpiringDelivered(b)
    decreases |b|
  {
    if b == [] {
      assert a + b == a;
    } else {
      var n := |b| - 1;
      assert (a + b)[..|a + b| - 1] == a + b[..n];
      ExpiringAppend(a, b[..n]);
    }
  }

  lemma DelaysAreAppend(a: seq<Event>, b: seq<Event>, delay: nat)
    requires DelaysAre(a, delay) && DelaysAre(b, delay)
    ensures DelaysAre(a + b, delay)
  {
    forall k | 0 <= k < |a + b| && (a + b)[k].DeleteScheduled? ensures (a + b)[k].delay == delay {
      if k >= |a| { assert (a + b)[k] == b[k - |a|]; }
    }
  }

  /** The messages a bundle's items go out as: item i in stored order,
      with the bundle caption on item 0 only. */
  function Rendered(items: seq<Item>, cap: string): (ms: seq<Outgoing>)
    ensures |ms| == |items|
  {
    seq(|items|, j requires 0 <= j < |items| => Render(items[j], CaptionFor(j, cap)))
  }

  /** The ids of the first n replies that report a delivered message. */
  function DeliveredIds(replies: seq<Reply>, n: nat): seq<int>
    decreases n
  {
    if n == 0 then []
    else
      DeliveredIds(replies, n - 1) +
      (if ReplyAt(replies, n - 1).Delivered? then [ReplyAt(replies, n - 1).messageId] else [])
  }

  /** The views of one item's calls. */
  lemma ItemLogViews(chat: int, item: Item, cap: Option<string>, delay: nat, r: Reply)
    ensures var log := ItemLog(chat, item, cap, delay, r);
            && Messages(log) == [Render(item, cap)]
            && Scheduled(log) == (if r.Delivered? then [r.messageId] else [])
            && ExpiringDelivered(log) == (if r.Delivered? then [r.messageId] else [])
            && DelaysAre(log, delay)
  {
    var sent := Sent(chat, Render(item, cap), r);
    SingleViews(sent);
    if r.Delivered? {
      var d := DeleteScheduled(chat, r.messageId, delay);
      SingleViews(d);
      ViewsAppend([sent], [d]);
    }
  }

  /** The payload loop sends every item, in order, with the caption on the
      first only; it schedules a deletion, at `delay`, for exactly the items
      whose send succeeded. */
  lemma {:induction false} ItemsLogShape(chat: int, items: seq<Item>, cap: string, delay: nat, replies: seq<Reply>)
    ensures Messages(ItemsLog(chat, items, cap, delay, replies)) == Rendered(items, cap)
    ensures Scheduled(ItemsLog(chat, items, cap, delay, replies)) == DeliveredIds(replies, |items|)
    ensures ExpiringDelivered(ItemsLog(chat, items, cap, delay, replies)) == DeliveredIds(replies, |items|)
    ensures DelaysAre(ItemsLog(chat, items, cap, delay, replies), delay)
    decreases |items|
  {
    if items != [] {
      var n := |items| - 1;
      var pre := ItemsLog(chat, items[..n], cap, delay, replies);
      var last := ItemLog(chat, items[n], CaptionFor(n, cap), delay, ReplyAt(replies, n));
      ItemsLogShape(chat, items[..n], cap, delay, replies);
      ItemLogViews(chat, items[n], CaptionFor(n, cap), delay, ReplyAt(replies, n));
      ViewsAppend(pre, last);
      RenderedSnoc(items, cap);
      DelaysAreAppend(pre, last, delay);
    }
  }

  lemma RenderedSnoc(items: seq<Item>, cap: string)
    requires items != []
    ensures Rendered(items, cap) ==
              Rendered(items[..|items| - 1], cap) + [Render(items[|items| - 1], CaptionFor(|items| - 1, cap))]
  {
  }

  lemma SingleViews(e: Event)
    ensures Messages([e]) == (if e.Sent? then [e.message] else [])
    ensures Scheduled([e]) == (if e.DeleteScheduled? then [e.messageId] else [])
    ensures ExpiringDelivered([e]) ==
              (if e.Sent? && e.reply.Delivered? && e.message.Expiring() then [e.reply.messageId] else [])
  {
    assert [e][..0] == [];
  }

  /** The views of the reminder with its deletion. */
  lemma HeadViews(chat: int, minutes: nat, id: int, delay: nat)
    ensures var head := [Sent(chat, Reminder(minutes), Delivered(id)), DeleteScheduled(chat, id, delay)];
            && Messages(head) == [Reminder(minutes)]
            && Scheduled(head) == [id]
            && ExpiringDelivered(head) == [id]
            && DelaysAre(head, delay)
  {
    var a := Sent(chat, Reminder(minutes), Delivered(id));
    var d := DeleteScheduled(chat, id, delay);
    SingleViews(a);
    SingleViews(d);
    ViewsAppend([a], [d]);
    assert [a] + [d] == [a, d];
  }

  /** A found bundle's log, when the reminder goes out, is the reminder
      with its deletion, the payload loop, and the promotional message. */
  lemma BundleLogParts(chat: int, b: Bundle, delay: nat, script: seq<Reply>)
    requires ReplyAt(script, 0).Delivered?
    ensures var r := ReplyAt(script, 0);
            BundleLog(chat, b, delay, script) ==
              [Sent(chat, Reminder(delay / 60), r), DeleteScheduled(chat, r.messageId, delay)] +
              ItemsLog(chat, b.payload, b.caption, delay, Drop(script, 1)) +
              [Sent(chat, Promo, ReplyAt(script, 1 + |b.payload|))]
  {
  }

  /** When the reminder goes out, the views of the whole log of a found
      bundle (see KnownCodeDelivery). */
  lemma {:induction false} BundleLogViews(chat: int, b: Bundle, delay: nat, script: seq<Reply>)
    requires ReplyAt(script, 0).Delivered?
    ensures var log := BundleLog(chat, b, delay, script);
            && Messages(log) == [Reminder(delay / 60)] + Rendered(b.payload, b.caption) + [Promo]
            && Scheduled(log) == [ReplyAt(script, 0).messageId] + DeliveredIds(Drop(script, 1), |b.payload|)
            && ExpiringDelivered(log) == Scheduled(log)
            && DelaysAre(log, delay)
            && log[|log| - 1] == Sent(chat, Promo, ReplyAt(script, 1 + |b.payload|))
  {
    var r := ReplyAt(script, 0);
    var head := [Sent(chat, Reminder(delay / 60), r), DeleteScheduled(chat, r.messageId, delay)];
    var items := ItemsLog(chat, b.payload, b.caption, delay, Drop(script, 1));
    var p := Sent(chat, Promo, ReplyAt(script, 1 + |b.payload|));
    var log := BundleLog(chat, b, delay, script);
    BundleLogParts(chat, b, delay, script);
    assert log == (head + items) + [p];
    HeadViews(chat, delay / 60, r.messageId, delay);
    ItemsLogShape(chat, b.payload, b.caption, delay, Drop(script, 1));
    SingleViews(p);
    ViewsAppend(head, items);
    ViewsAppend(head + items, [p]);
    DelaysAreAppend(head, items, delay);
    DelaysAreAppend(head + items, [p], delay);
  }

  /** Delivering a known code sends the reminder, then every item of the
      bundle in stored order with the bundle caption on item 0 only, then
      the promotional message, which is the last call made. Deletion is
      scheduled, at the delay in force, for the reminder and then for
      each item whose send succeeded: nothing else. */
  lemma KnownCodeDelivery(media: map<string, Bundle>, delay: nat, chat: int, code: string, script: seq<Reply>)
    requires Upper(code) in media
    requires ReplyAt(script, 0).Delivered?
    ensures var b := media[Upper(code)];
            var log := SendMediaLog(media, delay, chat, code, script);
            && Messages(log) == [Reminder(delay / 60)] + Rendered(b.payload, b.caption) + [Promo]
            && Scheduled(log) == [ReplyAt(script, 0).messageId] + DeliveredIds(Drop(script, 1), |b.payload|)
            && DelaysAre(log, delay)
            && log[|log| - 1] == Sent(chat, Promo, ReplyAt(script, 1 + |b.payload|))
  {
    BundleLogViews(chat, media[Upper(code)], delay, script);
  }

  /** For every request, deletion is scheduled for exactly the delivered
      messages of an expiring kind, in the order they were sent, and always
      at the delay in force; so the not-found notice and the promotional
      message are never scheduled for deletion. */
  lemma DeletionsExactlyExpiring(media: map<string, Bundle>, delay: nat, chat: int, code: string, script: seq<Reply>)
    ensures var log := SendMediaLog(media, delay, chat, code, script);
            Scheduled(log) == ExpiringDelivered(log) && DelaysAre(log, delay)
  {
    var log := SendMediaLog(media, delay, chat, code, script);
    if Upper(code) !in media || ReplyAt(script, 0).Failed? {
      SingleViews(log[0]);
      assert log == [log[0]];
    } else {
      BundleLogViews(chat, media[Upper(code)], delay, script);
    }
  }

  /** The deep link `/start CODE` hands the code back to `start_cmd`. */
  lemma StartArgumentOfLink(command: string, code: string)
    requires IsWord(command) && IsWord(code)
    ensures StartArgument(command + " " + code) == code
  {
    WordsOfPair(command, code);
  }

  /** `/start` alone, or followed only by spaces, carries no code. */
  lemma StartWithoutArgument(command: string, spaces: string)
    requires IsWord(command)
    requires forall i :: 0 <= i < |spaces| ==> IsSpace(spaces[i])
    ensures StartArgument(command + spaces) == ""
  {
    WordLengthOfWord(command, spaces);
    var s := command + spaces;
    assert s[..|command|] == command;
    assert s[|command|..] == spaces;
    AllSpaceHasNoWords(spaces);
  }

  lemma {:induction false} AllSpaceHasNoWords(s: string)
    requires forall i :: 0 <= i < |s| ==> IsSpace(s[i])
    ensures Words(s) == []
    decreases |s|
  {
    if s != [] {
      AllSpaceHasNoWords(s[1..]);
    }
  }
}
