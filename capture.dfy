/** The owner's capture workflow as values: what `handle_media_save` makes
    of one incoming message, and the bundle `done_save_cmd` commits from
    the captured items. The Bot class holds the session and performs the
    steps. */
module Capture {

  import opened Model

  /** The parts of an incoming message `handle_media_save` looks at: the
      file ids of the photo sizes (empty when there is no photo), the video
      and document file ids, the text and the caption. */
  datatype Incoming = Incoming(
    photo: seq<string>,
    video: Option<string>,
    document: Option<string>,
    text: Option<string>,
    caption: Option<string>)

  /** `m.caption or ""`. */
  function CaptionOrEmpty(c: Option<string>): string {
    match c
    case Some(s) => s
    case None => ""
  }

  /** The stored content for a message: photo first (the last, largest
      size), then video, document and non-empty text; None when the
      message carries none of these and is ignored. */
  function CaptureContent(m: Incoming): Option<Content> {
    if m.photo != [] then Some(PhotoFile(m.photo[|m.photo| - 1]))
    else if m.video.Some? then Some(VideoFile(m.video.value))
    else if m.document.Some? then Some(DocumentFile(m.document.value))
    else if m.text.Some? && m.text.value != "" then Some(TextBody(m.text.value))
    else None
  }

  /** An item as a capture session holds it: a caption key, when present,
      holds a non-empty string. */
  predicate SessionItem(it: Item) {
    match it.caption
    case NoCaption => true
    case Captioned(s) => s != ""
    case ClearedCaption => false
  }

  /** The payload `handle_media_save` appends for a message, if any. */
  function CaptureItem(m: Incoming): (r: Option<Item>)
    ensures r.Some? <==> CaptureContent(m).Some?
    ensures r.Some? ==> r.value.content == CaptureContent(m).value
    ensures r.Some? ==> SessionItem(r.value)
    ensures r.Some? ==> (r.value.caption.Captioned? <==> CaptionOrEmpty(m.caption) != "")
    ensures r.Some? && r.value.caption.Captioned? ==> r.value.caption.text == CaptionOrEmpty(m.caption)
  {
    match CaptureContent(m)
    case None => None
    case Some(c) =>
      var cap := CaptionOrEmpty(m.caption);
      Some(Item(c, if cap != "" then Captioned(cap) else NoCaption))
  }

  /** The kind of the captured item follows the priority photo, video,
      document, text: a kind is chosen only when every kind before it is
      absent from the message. */
  lemma CapturePriority(m: Incoming)
    ensures CaptureContent(m).Some? && CaptureContent(m).value.PhotoFile? <==> m.photo != []
    ensures CaptureContent(m).Some? && CaptureContent(m).value.VideoFile? <==> m.photo == [] && m.video.Some?
    ensures CaptureContent(m).Some? && CaptureContent(m).value.DocumentFile? <==>
              m.photo == [] && m.video.None? && m.document.Some?
    ensures CaptureContent(m).Some? && CaptureContent(m).value.TextBody? <==>
              m.photo == [] && m.video.None? && m.document.None? && m.text.Some? && m.text.value != ""
  {
  }

  /** The session built from an empty list by feeding it messages in
      arrival order. */
  function Captured(ms: seq<Incoming>): seq<Item>
    decreases |ms|
  {
    if ms == [] then []
    else
      var n := |ms| - 1;
      Captured(ms[..n]) + (match CaptureItem(ms[n]) case Some(it) => [it] case None => [])
  }

  /** `if "caption" in item: item["caption"] = None`. */
  function ClearItem(it: Item): Item {
    if it.caption.NoCaption? then it else it.(caption := ClearedCaption)
  }

  /** The items after the clearing loop of `done_save_cmd`: same items in
      the same order, every caption key that was present now None, and no
      caption text left. */
  function ClearCaptions(items: seq<Item>): (r: seq<Item>)
    ensures |r| == |items|
    ensures forall j :: 0 <= j < |r| ==>
              r[j].content == items[j].content &&
              (r[j].caption.NoCaption? <==> items[j].caption.NoCaption?) &&
              !r[j].caption.Captioned?
  {
    seq(|items|, j requires 0 <= j < |items| => ClearItem(items[j]))
  }

  /** `.get("caption", "")` on an item of a session (where the key, when
      present, holds a string). */
  function CaptionText(c: Caption): string {
    if c.Captioned? then c.text else ""
  }

  /** The bundle `done_save_cmd` stores: the caption of the last item and
      the items with their captions cleared. */
  function Commit(items: seq<Item>): Bundle
    requires items != []
  {
    Bundle(CaptionText(items[|items| - 1].caption), ClearCaptions(items))
  }

  /** A bundle committed from messages captured in arrival order carries
      the caption of the last message that produced an item (or "" if that
      message had none); captions of earlier messages are dropped. */
  lemma {:induction false} CommitOfCaptured(ms: seq<Incoming>)
    requires Captured(ms) != []
    ensures exists k :: 0 <= k < |ms| && CaptureItem(ms[k]).Some? &&
              (forall j :: k < j < |ms| ==> CaptureItem(ms[j]).None?) &&
              Commit(Captured(ms)).caption == CaptionOrEmpty(ms[k].caption)
    decreases |ms|
  {
    var n := |ms| - 1;
    var pre := ms[..n];
    match CaptureItem(ms[n])
    case Some(it) => {
      assert Captured(ms) == Captured(pre) + [it];
      assert Commit(Captured(ms)).caption == CaptionOrEmpty(ms[n].caption);
    }
    case None => {
      assert Captured(ms) == Captured(pre);
      CommitOfCaptured(pre);
      var k :| 0 <= k < |pre| && CaptureItem(pre[k]).Some? &&
               (forall j :: k < j < |pre| ==> CaptureItem(pre[j]).None?) &&
               Commit(Captured(pre)).caption == CaptionOrEmpty(pre[k].caption);
      assert pre[k] == ms[k];
      assert forall j :: k < j < |ms| ==> CaptureItem(ms[j]).None? by {
        forall j | k < j < |ms| ensures CaptureItem(ms[j]).None? {
          if j < n { assert ms[j] == pre[j]; }
        }
      }
    }
  }

  /** Every item of a captured session is a session item. */
  lemma {:induction false} CapturedAreSessionItems(ms: seq<Incoming>)
    ensures forall j :: 0 <= j < |Captured(ms)| ==> SessionItem(Captured(ms)[j])
    decreases |ms|
  {
    if ms != [] {
      CapturedAreSessionItems(ms[..|ms| - 1]);
    }
  }
}
