/** How the pieces fit over a bundle's life: a code issued by `done` is
    what `/start CODE` and the recheck button hand back, the upper-casing
    of `send_media` leaves it as it is, and the bundle stored under it is
    delivered as captured. */
module Lifecycle {

  import opened Model
  import opened Text
  import opened Gate
  import opened Delivery
  import opened Capture
  import opened CodeGen

  /** Every issued code is already upper case, so the lookup in
      `send_media` finds it as stored. */
  lemma UpperOfCode(c: string, length: nat)
    requires IsCode(c, length)
    ensures Upper(c) == c
  {
    forall i | 0 <= i < |c| ensures UpperChar(c[i]) == c[i] {
      var k :| 0 <= k < |Alphabet| && Alphabet[k] == c[i];
      AlphabetChar(k);
    }
  }

  /** The alphabet is the upper-case ASCII letters and the digits. */
  lemma AlphabetChar(k: nat)
    requires k < |Alphabet|
    ensures 'A' <= Alphabet[k] <= 'Z' || '0' <= Alphabet[k] <= '9'
  {
  }

  /** An issued code is one word without colons: it survives both the
      `/start CODE` link and the recheck button data. */
  lemma CodeIsWord(c: string)
    requires IsCode(c, CodeLength)
    ensures IsWord(c) && ':' !in c
  {
    assert c[0] in Alphabet;
    forall i | 0 <= i < |c| ensures !IsSpace(c[i]) && c[i] != ':' {
      var k :| 0 <= k < |Alphabet| && Alphabet[k] == c[i];
      AlphabetChar(k);
    }
  }

  /** The send calls ignore an item's own caption key, so clearing the
      captions on commit changes nothing of what is sent. */
  lemma RenderedIgnoresCaptions(items: seq<Item>, cap: string)
    ensures Rendered(ClearCaptions(items), cap) == Rendered(items, cap)
  {
    var a := Rendered(ClearCaptions(items), cap);
    var b := Rendered(items, cap);
    forall j | 0 <= j < |items| ensures a[j] == b[j] {
      assert ClearCaptions(items)[j].content == items[j].content;
    }
  }

  /** Requesting the code a bundle was just committed under sends the
      reminder, every captured item in capture order with the caption of
      the LAST captured item on the first one, and the promotional message;
      deletion is scheduled for the reminder and each delivered item. */
  lemma {:induction false} CommittedBundleDelivery(media: map<string, Bundle>, items: seq<Item>, code: string,
                                                   delay: nat, chat: int, script: seq<Reply>)
    requires items != []
    requires IsCode(code, CodeLength)
    requires ReplyAt(script, 0).Delivered?
    ensures var log := SendMediaLog(media[code := Commit(items)], delay, chat, code, script);
            && Messages(log) ==
                 [Reminder(delay / 60)] + Rendered(items, CaptionText(items[|items| - 1].caption)) + [Promo]
            && Scheduled(log) == [ReplyAt(script, 0).messageId] + DeliveredIds(Drop(script, 1), |items|)
            && DelaysAre(log, delay)
  {
    var stored := media[code := Commit(items)];
    UpperOfCode(code, CodeLength);
    KnownCodeDelivery(stored, delay, chat, code, script);
    RenderedIgnoresCaptions(items, CaptionText(items[|items| - 1].caption));
  }

  /** The deep link `/start CODE` hands an issued code back unchanged. */
  lemma DeepLinkArgument(code: string)
    requires IsCode(code, CodeLength)
    ensures StartArgument("/start " + code) == code
  {
    CodeIsWord(code);
    StartOfWord(code);
  }

  lemma StartOfWord(w: string)
    requires IsWord(w)
    ensures StartArgument("/start " + w) == w
  {
    assert IsWord("/start");
    assert "/start " + w == "/start" + " " + w;
    StartArgumentOfLink("/start", w);
  }

  /** The deep link `/start CODE` of a granted user delivers exactly what
      `send_media` delivers for that code. */
  lemma DeepLinkDelivers(media: map<string, Bundle>, delay: nat, groups: seq<Group>, chat: int,
                         code: string, script: seq<Reply>)
    requires IsCode(code, CodeLength)
    ensures StartLog(media, delay, groups, [], chat, StartArgument("/start " + code), script) ==
              SendMediaLog(media, delay, chat, code, script)
  {
    DeepLinkArgument(code);
  }

  /** The recheck button of a prompt for `code`, once the gate grants
      access, answers the callback, deletes the prompt and delivers
      `code`; with no code it delivers nothing. */
  lemma RecheckDelivers(media: map<string, Bundle>, delay: nat, callbackId: string, chat: int,
                        promptId: int, code: string, script: seq<Reply>)
    requires ':' !in code
    ensures CheckJoinLog(media, delay, [], callbackId, chat, promptId, CallbackCode("check_join:" + code), script) ==
              [CallbackAnswered(callbackId, false), Deleted(chat, promptId)] +
              (if code != "" then SendMediaLog(media, delay, chat, code, script) else [])
  {
    CallbackCodeRoundTrip(code);
  }

  /** No message of the delivery path is a join prompt. */
  lemma NoPromptInDelivery(media: map<string, Bundle>, delay: nat, chat: int, code: string, script: seq<Reply>)
    ensures forall k :: 0 <= k < |Messages(SendMediaLog(media, delay, chat, code, script))| ==>
              !Messages(SendMediaLog(media, delay, chat, code, script))[k].JoinPrompt?
  {
    var log := SendMediaLog(media, delay, chat, code, script);
    if Upper(code) !in media || ReplyAt(script, 0).Failed? {
      SingleViews(log[0]);
      assert log == [log[0]];
    } else {
      KnownCodeDelivery(media, delay, chat, code, script);
      var b := media[Upper(code)];
      var ms := Messages(log);
      forall k | 0 <= k < |ms| ensures !ms[k].JoinPrompt? {
        if 0 < k <= |b.payload| {
          assert ms[k] == Rendered(b.payload, b.caption)[k - 1];
          assert ms[k].Expiring();
        }
      }
    }
  }

  /** `/start` sends a join prompt exactly when some required group's
      query fails (raised, or "left" or "kicked"). The prompt, which lists
      every required group and carries the code, is then the only message,
      and nothing is scheduled for deletion. */
  lemma StartGated(media: map<string, Bundle>, delay: nat, groups: seq<Group>, probes: seq<Probe>,
                   chat: int, text: string, script: seq<Reply>)
    requires |probes| == |groups|
    ensures var log := StartLog(media, delay, groups, Missing(groups, probes), chat, StartArgument(text), script);
            && ((exists i :: 0 <= i < |probes| && Fails(probes[i])) <==>
                  (exists k :: 0 <= k < |Messages(log)| && Messages(log)[k].JoinPrompt?))
            && ((exists i :: 0 <= i < |probes| && Fails(probes[i])) ==>
                  Messages(log) == [JoinPrompt(Links(groups), StartArgument(text))] && Scheduled(log) == [])
  {
    var code := StartArgument(text);
    var log := StartLog(media, delay, groups, Missing(groups, probes), chat, code, script);
    GrantedIff(groups, probes);
    if Missing(groups, probes) != [] {
      SingleViews(log[0]);
      assert log == [log[0]];
      assert Messages(log)[0].JoinPrompt?;
    } else if code != "" {
      NoPromptInDelivery(media, delay, chat, code, script);
    } else {
      SingleViews(log[0]);
      assert log == [log[0]];
    }
  }
}
