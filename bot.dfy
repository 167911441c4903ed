/** The bot's handlers over its mutable state: the media store, the
    required group list, the owner's capture session, the user set and the
    deletion delay. Every handler logs its transport calls on `net`; each
    method is proved to log exactly what the functions of Delivery, Capture
    and Admin say, and to change only the state the source changes. */
module Handlers {

  import opened Model
  import opened Text
  import opened Transport
  import opened Gate
  import opened Delivery
  import opened Capture
  import opened CodeGen
  import opened Admin

  class Bot {
    /** `OWNER_ID`. */
    const owner: int
    /** The transport. */
    const net: Outbox
    /** `MEDIA`: bundle code to bundle. */
    var media: map<string, Bundle>
    /** The required groups, in list order (the contents of the groups
        file, which every handler reloads). */
    var groups: seq<Group>
    /** `USER_STATE`: user to the items captured so far. */
    var sessions: map<int, seq<Item>>
    /** `USERS`: everyone who sent `/start`. */
    var users: set<int>
    /** `DELETE_DELAY`, in seconds. */
    var deleteDelay: nat

    /** Only the owner ever has a capture session, and a session holds
        only items as `handle_media_save` builds them. */
    ghost predicate Valid()
      reads this
    {
      (forall u :: u in sessions ==> u == owner) &&
      (forall u :: u in sessions ==> forall j :: 0 <= j < |sessions[u]| ==> SessionItem(sessions[u][j]))
    }

    /** The state loaded at start-up; no session is open. */
    constructor (owner: int, net: Outbox, media: map<string, Bundle>, groups: seq<Group>,
                 users: set<int>, deleteDelay: nat)
      ensures this.owner == owner && this.net == net
      ensures this.media == media && this.groups == groups && this.users == users
      ensures this.deleteDelay == deleteDelay && sessions == map[]
      ensures Valid()
    {
      this.owner := owner;
      this.net := net;
      this.media := media;
      this.groups := groups;
      this.users := users;
      this.deleteDelay := deleteDelay;
      sessions := map[];
    }

    /** `is_owner(uid)`. */
    predicate IsOwner(user: int) {
      user == owner
    }

    /** `send_single_media(chat_id, item, cap)`: the message id when the
        send succeeded, whose deletion is then scheduled. */
    method SendSingleMedia(chat: int, item: Item, cap: Option<string>) returns (id: Option<int>)
      modifies net
      ensures net.log == old(net.log) + ItemLog(chat, item, cap, deleteDelay, ReplyAt(old(net.script), 0))
      ensures net.script == Drop(old(net.script), 1)
      ensures id == if ReplyAt(old(net.script), 0).Delivered? then Some(ReplyAt(old(net.script), 0).messageId) else None
    {
      var reply := net.Send(chat, Render(item, cap));
      if reply.Delivered? {
        net.ScheduleDelete(chat, reply.messageId, deleteDelay);
        id := Some(reply.messageId);
      } else {
        id := None;
      }
    }

    /** `send_media(chat_id, code)`. */
    method SendMedia(chat: int, code: string)
      modifies net
      ensures net.log == old(net.log) + SendMediaLog(media, deleteDelay, chat, code, old(net.script))
      ensures net.script == Drop(old(net.script), SendMediaCalls(media, code, old(net.script)))
    {
      var key := Upper(code);
      if key !in media {
        var _ := net.Send(chat, NotFound(code));
        return;
      }
      SendBundle(chat, media[key]);
    }

    /** `send_media` for a code that was found. */
    method SendBundle(chat: int, b: Bundle)
      modifies net
      ensures net.log == old(net.log) + BundleLog(chat, b, deleteDelay, old(net.script))
      ensures net.script ==
                Drop(old(net.script), if ReplyAt(old(net.script), 0).Failed? then 1 else 2 + |b.payload|)
    {
      ghost var s0 := net.script;
      ghost var base := net.log;
      var r := net.Send(chat, Reminder(deleteDelay / 60));
      if r.Failed? {
        return;
      }
      net.ScheduleDelete(chat, r.messageId, deleteDelay);
      ghost var head := [Sent(chat, Reminder(deleteDelay / 60), r), DeleteScheduled(chat, r.messageId, deleteDelay)];
      assert net.log == base + head;
      SendItems(chat, b.payload, b.caption);
      ReplyAtDrop(s0, 1, |b.payload|);
      DropDrop(s0, 1, |b.payload|);
      ReplyAtDrop(s0, 1 + |b.payload|, 0);
      DropDrop(s0, 1 + |b.payload|, 1);
      var _ := net.Send(chat, Promo);
      BundleLogParts(chat, b, deleteDelay, s0);
    }

    /** The loop of `send_media` over the payload, the caption going with
        item 0 only. */
    method SendItems(chat: int, items: seq<Item>, cap: string)
      modifies net
      ensures net.log == old(net.log) + ItemsLog(chat, items, cap, deleteDelay, old(net.script))
      ensures net.script == Drop(old(net.script), |items|)
    {
      ghost var s1 := net.script;
      ghost var mid := net.log;
      var i := 0;
      while i < |items|
        invariant 0 <= i <= |items|
        invariant net.log == mid + ItemsLog(chat, items[..i], cap, deleteDelay, s1)
        invariant net.script == Drop(s1, i)
      {
        ReplyAtDrop(s1, i, 0);
        DropDrop(s1, i, 1);
        var _ := SendSingleMedia(chat, items[i], CaptionFor(i, cap));
        assert items[..i + 1][..i] == items[..i];
        i := i + 1;
      }
      assert items[..i] == items;
    }

    /** `start_cmd`: records the user, reads the code argument, runs the
        gate with one query result per required group, then prompts to
        join, delivers the code, or shows the usage hint. */
    method Start(user: int, chat: int, text: string, probes: seq<Probe>)
      requires |probes| == |groups|
      modifies this`users, net
      ensures users == old(users) + {user}
      ensures net.log == old(net.log) +
                StartLog(media, deleteDelay, groups, Missing(groups, probes), chat, StartArgument(text), old(net.script))
      ensures net.script == Drop(old(net.script), StartCalls(media, Missing(groups, probes), StartArgument(text), old(net.script)))
    {
      if user !in users {
        users := users + {user};
      }
      var code := StartArgument(text);
      var missing := NotJoined(groups, probes);
      if missing != [] {
        var _ := net.Send(chat, JoinPrompt(Links(groups), code));
        return;
      }
      if code != "" {
        SendMedia(chat, code);
      } else {
        var _ := net.Send(chat, Usage);
      }
    }

    /** `cb_check`: the recheck button of a join prompt, whose data is
        `check_join:CODE`. */
    method CheckJoin(callbackId: string, user: int, chat: int, promptId: int, data: string, probes: seq<Probe>)
      requires |probes| == |groups|
      modifies net
      ensures net.log == old(net.log) +
                CheckJoinLog(media, deleteDelay, Missing(groups, probes), callbackId, chat, promptId,
                             CallbackCode(data), old(net.script))
      ensures net.script == Drop(old(net.script), CheckJoinCalls(media, Missing(groups, probes), CallbackCode(data), old(net.script)))
    {
      var code := CallbackCode(data);
      var missing := NotJoined(groups, probes);
      if missing != [] {
        net.AnswerCallback(callbackId, true);
        return;
      }
      Recheck(callbackId, chat, promptId, code);
    }

    /** `cb_check` once the gate has granted access. */
    method Recheck(callbackId: string, chat: int, promptId: int, code: string)
      modifies net
      ensures net.log == old(net.log) +
                CheckJoinLog(media, deleteDelay, [], callbackId, chat, promptId, code, old(net.script))
      ensures net.script == Drop(old(net.script), CheckJoinCalls(media, [], code, old(net.script)))
    {
      ghost var log0 := net.log;
      ghost var s0 := net.script;
      net.AnswerCallback(callbackId, false);
      net.Delete(chat, promptId);
      ghost var answered := [CallbackAnswered(callbackId, false), Deleted(chat, promptId)];
      assert net.log == log0 + answered;
      if code != "" {
        ghost var sent := SendMediaLog(media, deleteDelay, chat, code, s0);
        assert CheckJoinLog(media, deleteDelay, [], callbackId, chat, promptId, code, s0) == answered + sent;
        SendMedia(chat, code);
        assert net.log == (log0 + answered) + sent;
        assert (log0 + answered) + sent == log0 + (answered + sent);
      } else {
        assert answered + [] == answered;
        assert Drop(s0, 0) == s0;
      }
    }

    /** `prompt_save_cmd` ("p" or "save"): the owner starts a new, empty
        session, discarding any open one; anyone else is ignored. */
    method PromptSave(user: int, chat: int)
      requires Valid()
      modifies this`sessions, net
      ensures Valid()
      ensures net.script == old(net.script)
      ensures IsOwner(user) ==> sessions == old(sessions)[user := []] &&
                                net.log == old(net.log) + [Replied(chat, SaveInstructions)]
      ensures !IsOwner(user) ==> sessions == old(sessions) && net.log == old(net.log)
    {
      if !IsOwner(user) {
        return;
      }
      sessions := sessions[user := []];
      net.Notify(chat, SaveInstructions);
    }

    /** `handle_media_save`: a message from a user with an open session
        appends the item it carries, if any. */
    method HandleMediaSave(user: int, m: Incoming)
      requires Valid()
      modifies this`sessions
      ensures Valid()
      ensures user in old(sessions) && CaptureItem(m).Some? ==>
                sessions == old(sessions)[user := old(sessions)[user] + [CaptureItem(m).value]]
      ensures user !in old(sessions) || CaptureItem(m).None? ==> sessions == old(sessions)
    {
      if user !in sessions {
        return;
      }
      var it := CaptureItem(m);
      if it.None? {
        return;
      }
      var items := sessions[user] + [it.value];
      assert forall j :: 0 <= j < |items| ==> SessionItem(items[j]) by {
        forall j | 0 <= j < |items| ensures SessionItem(items[j]) {
          if j < |sessions[user]| { assert items[j] == sessions[user][j]; }
        }
      }
      sessions := sessions[user := items];
    }

    /** The clearing loop of `done_save_cmd`. */
    method ClearAll(items: seq<Item>) returns (r: seq<Item>)
      ensures r == ClearCaptions(items)
    {
      r := items;
      var i := 0;
      while i < |r|
        invariant 0 <= i <= |r| == |items|
        invariant forall j :: 0 <= j < i ==> r[j] == ClearItem(items[j])
        invariant forall j :: i <= j < |r| ==> r[j] == items[j]
      {
        if !r[i].caption.NoCaption? {
          r := r[i := r[i].(caption := ClearedCaption)];
        }
        i := i + 1;
      }
    }

    /** `done_save_cmd`: the owner's open session is committed under a
        fresh code drawn from `draws` (an empty session is only closed);
        anyone without a session is ignored. Committing needs the draws to
        yield a code not yet in the store. */
    method DoneSave(user: int, chat: int, draws: seq<Pick>)
      requires Valid()
      requires IsOwner(user) && user in sessions && sessions[user] != [] ==>
                 FirstFresh(media.Keys, CodeLength, draws).Some?
      modifies this`sessions, this`media, net
      ensures Valid()
      ensures net.script == old(net.script)
      ensures !IsOwner(user) || user !in old(sessions) ==>
                sessions == old(sessions) && media == old(media) && net.log == old(net.log)
      ensures IsOwner(user) && user in old(sessions) && old(sessions)[user] == [] ==>
                sessions == old(sessions) - {user} && media == old(media) &&
                net.log == old(net.log) + [Replied(chat, NothingCaptured)]
      ensures IsOwner(user) && user in old(sessions) && old(sessions)[user] != [] ==>
                var code := FirstFresh(old(media).Keys, CodeLength, draws).value;
                && IsCode(code, CodeLength) && code !in old(media)
                && media == old(media)[code := Commit(old(sessions)[user])]
                && sessions == old(sessions) - {user}
                && net.log == old(net.log) + [Replied(chat, Saved(code))]
    {
      if !IsOwner(user) || user !in sessions {
        return;
      }
      var items := sessions[user];
      if items == [] {
        sessions := sessions - {user};
        net.Notify(chat, NothingCaptured);
        return;
      }
      var caption := CaptionText(items[|items| - 1].caption);
      var cleared := ClearAll(items);
      var code := GenCode(media.Keys, CodeLength, draws);
      media := media[code.value := Bundle(caption, cleared)];
      net.Notify(chat, Saved(code.value));
      sessions := sessions - {user};
    }

    /** `/set_delay [minutes]` from the owner. */
    method SetDelay(user: int, chat: int, text: string)
      modifies this`deleteDelay, net
      ensures net.script == old(net.script)
      ensures !IsOwner(user) ==> deleteDelay == old(deleteDelay) && net.log == old(net.log)
      ensures IsOwner(user) ==>
                match ParseSetDelay(text)
                case DelayShow =>
                  deleteDelay == old(deleteDelay) &&
                  net.log == old(net.log) + [Replied(chat, DelayUsage(old(deleteDelay) / 60, old(deleteDelay)))]
                case DelayBad =>
                  deleteDelay == old(deleteDelay) && net.log == old(net.log) + [Replied(chat, DelayInvalid)]
                case DelayMinutes(m) =>
                  deleteDelay == m * 60 && net.log == old(net.log) + [Replied(chat, DelaySet(m, m * 60))]
    {
      if !IsOwner(user) {
        return;
      }
      match ParseSetDelay(text)
      case DelayShow =>
        net.Notify(chat, DelayUsage(deleteDelay / 60, deleteDelay));
      case DelayBad =>
        net.Notify(chat, DelayInvalid);
      case DelayMinutes(m) =>
        deleteDelay := m * 60;
        net.Notify(chat, DelaySet(m, deleteDelay));
    }

    /** `/addgroup ID LINK` from the owner: a new id is appended, marked
        fixed; an id already present is refused. */
    method AddGroup(user: int, chat: int, text: string)
      modifies this`groups, net
      ensures net.script == old(net.script)
      ensures !IsOwner(user) ==> groups == old(groups) && net.log == old(net.log)
      ensures IsOwner(user) ==>
                match ParseAddGroup(text)
                case AddShow => groups == old(groups) && net.log == old(net.log) + [Replied(chat, AddGroupUsage)]
                case AddBad => groups == old(groups) && net.log == old(net.log) + [Replied(chat, AddGroupBadId)]
                case AddGroupRequest(gid, link) =>
                  if HasGroup(old(groups), gid) then
                    groups == old(groups) && net.log == old(net.log) + [Replied(chat, GroupExists(gid))]
                  else
                    groups == old(groups) + [Group(gid, link, true)] &&
                    net.log == old(net.log) + [Replied(chat, GroupAdded(gid, |old(groups)| + 1))]
      ensures UniqueIds(old(groups)) ==> UniqueIds(groups)
    {
      if !IsOwner(user) {
        return;
      }
      match ParseAddGroup(text)
      case AddShow =>
        net.Notify(chat, AddGroupUsage);
      case AddBad =>
        net.Notify(chat, AddGroupBadId);
      case AddGroupRequest(gid, link) =>
        if HasGroup(groups, gid) {
          net.Notify(chat, GroupExists(gid));
          return;
        }
        if UniqueIds(groups) {
          AddKeepsUnique(groups, Group(gid, link, true));
        }
        groups := groups + [Group(gid, link, true)];
        net.Notify(chat, GroupAdded(gid, |groups|));
    }

    /** `/delgroup ID` from the owner: every group with that id is removed;
        an id not present is reported. */
    method DelGroup(user: int, chat: int, text: string)
      modifies this`groups, net
      ensures net.script == old(net.script)
      ensures !IsOwner(user) ==> groups == old(groups) && net.log == old(net.log)
      ensures IsOwner(user) ==>
                match ParseDelGroup(text)
                case DelShow => groups == old(groups) && net.log == old(net.log) + [Replied(chat, DelGroupUsage)]
                case DelBad => groups == old(groups) && net.log == old(net.log) + [Replied(chat, DelGroupBadId)]
                case DelGroupRequest(gid) =>
                  if !HasGroup(old(groups), gid) then
                    groups == old(groups) && net.log == old(net.log) + [Replied(chat, GroupNotFound(gid))]
                  else
                    groups == RemoveGroup(old(groups), gid) && |groups| < |old(groups)| &&
                    (forall g :: g in groups <==> g in old(groups) && g.id != gid) &&
                    net.log == old(net.log) + [Replied(chat, GroupRemoved(gid, |groups|))]
      ensures UniqueIds(old(groups)) ==> UniqueIds(groups)
    {
      if !IsOwner(user) {
        return;
      }
      match ParseDelGroup(text)
      case DelShow =>
        net.Notify(chat, DelGroupUsage);
      case DelBad =>
        net.Notify(chat, DelGroupBadId);
      case DelGroupRequest(gid) =>
        var initial := |groups|;
        var remaining := RemoveGroup(groups, gid);
        RemoveGroupSpec(groups, gid);
        if |remaining| == initial {
          net.Notify(chat, GroupNotFound(gid));
          return;
        }
        if UniqueIds(groups) {
          RemoveKeepsUnique(groups, gid);
        }
        groups := remaining;
        net.Notify(chat, GroupRemoved(gid, |remaining|));
    }
  }
}
