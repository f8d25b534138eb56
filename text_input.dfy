/**
 * The text-input event handler as the source runs it: the per-object record
 * `TextInputDataInner` is updated field by field, requests are issued on the
 * text-input object one by one, and window events are appended to the
 * application's event sink. Each handler arm is proved to do what the
 * corresponding function of `TextInputModel` describes.
 */
module TextInput {
  import opened Base
  import opened ContentType
  import opened Protocol
  import opened Utf8
  import opened TextInputModel

  /** The record behind the text-input object's user data. */
  class TextInputDataInner {
    /** The surface text is being input to. */
    var surface: Option<SurfaceId>
    /** The commit to submit on done. */
    var pendingCommit: Option<seq<byte>>
    /** The preedit to submit on done. */
    var pendingPreedit: Option<Preedit>
    var pendingSurroundingDelete: Option<SurroundingDelete>

    /** `TextInputDataInner::default()`. */
    constructor ()
      ensures Snapshot() == Default()
    {
      surface, pendingCommit, pendingPreedit, pendingSurroundingDelete := None, None, None, None;
    }

    /** The record's value. */
    function Snapshot(): (s: Inner)
      reads this
    {
      Inner(surface, pendingCommit, pendingPreedit, pendingSurroundingDelete)
    }

    /** `pending_surrounding_delete.take()`. */
    method TakePendingSurroundingDelete() returns (d: Option<SurroundingDelete>)
      modifies this
      ensures d == old(pendingSurroundingDelete)
      ensures Snapshot() == old(Snapshot()).(pendingSurroundingDelete := None)
    {
      d, pendingSurroundingDelete := pendingSurroundingDelete, None;
    }

    /** `pending_commit.take()`. */
    method TakePendingCommit() returns (c: Option<seq<byte>>)
      modifies this
      ensures c == old(pendingCommit)
      ensures Snapshot() == old(Snapshot()).(pendingCommit := None)
    {
      c, pendingCommit := pendingCommit, None;
    }

    /** `pending_preedit.take()`. */
    method TakePendingPreedit() returns (p: Option<Preedit>)
      modifies this
      ensures p == old(pendingPreedit)
      ensures Snapshot() == old(Snapshot()).(pendingPreedit := None)
    {
      p, pendingPreedit := pendingPreedit, None;
    }
  }

  /**
   * The `zwp_text_input_v3` proxy: the requests sent on it, in order. The
   * window's `text_input_entered` / `text_input_left` callbacks, which are
   * handed this proxy, are recorded in the same log.
   */
  class TextInputProxy {
    var requests: seq<Request>

    constructor ()
      ensures requests == []
    {
      requests := [];
    }

    method Enable()
      modifies this
      ensures requests == old(requests) + [Request.Enable]
    {
      requests := requests + [Request.Enable];
    }

    method Disable()
      modifies this
      ensures requests == old(requests) + [Request.Disable]
    {
      requests := requests + [Request.Disable];
    }

    method SetSurroundingText(text: seq<byte>, cursor: int32, anchor: int32)
      modifies this
      ensures requests == old(requests) + [Request.SetSurroundingText(text, cursor, anchor)]
    {
      requests := requests + [Request.SetSurroundingText(text, cursor, anchor)];
    }

    method SetContentType(hint: ContentHint, purpose: ContentPurpose)
      modifies this
      ensures requests == old(requests) + [Request.SetContentType(hint, purpose)]
    {
      requests := requests + [Request.SetContentType(hint, purpose)];
    }

    /**
     * `ZwpTextInputV3Ext::set_content_type_by_purpose`: exactly one
     * `set_content_type` request, with the hint and purpose for `purpose`.
     */
    method SetContentTypeByPurpose(purpose: ImePurpose)
      modifies this
      ensures requests == old(requests) + [ContentTypeRequest(purpose)]
      ensures requests[|requests| - 1].hint == HINT_SENSITIVE_DATA <==> purpose == ImePurpose.Password
    {
      var (hint, contentPurpose) := ContentTypeFor(purpose);
      SetContentType(hint, contentPurpose);
    }

    method Commit()
      modifies this
      ensures requests == old(requests) + [Request.Commit]
    {
      requests := requests + [Request.Commit];
    }

    /** The window's `text_input_entered(text_input)`. */
    method WindowTextInputEntered(window: WindowId)
      modifies this
      ensures requests == old(requests) + [TextInputEntered(window)]
    {
      requests := requests + [TextInputEntered(window)];
    }

    /** The window's `text_input_left(text_input)`. */
    method WindowTextInputLeft(window: WindowId)
      modifies this
      ensures requests == old(requests) + [TextInputLeft(window)]
    {
      requests := requests + [TextInputLeft(window)];
    }
  }

  /** The application's event sink: window events in the order pushed. */
  class EventsSink {
    var events: seq<WindowEventPush>

    constructor ()
      ensures events == []
    {
      events := [];
    }

    method PushWindowEvent(event: Ime, window: WindowId)
      modifies this
      ensures events == old(events) + [Push(event, window)]
    {
      events := events + [Push(event, window)];
    }
  }

  /** The record, the request log and the event sink have changed exactly as `r` says. */
  twostate predicate Performed(data: TextInputDataInner, proxy: TextInputProxy, sink: EventsSink, r: StepResult)
    reads data, proxy, sink
  {
    && data.Snapshot() == r.next
    && proxy.requests == old(proxy.requests) + r.requests
    && sink.events == old(sink.events) + r.events
  }

  method HandleEnter(data: TextInputDataInner, proxy: TextInputProxy, sink: EventsSink,
                     windows: Registry, surface: SurfaceId)
    modifies data, proxy, sink
    ensures Performed(data, proxy, sink, EnterStep(old(data.Snapshot()), windows, surface))
  {
    var windowId := MakeWid(surface);
    data.surface := Some(surface);
    if windowId !in windows {
      return;
    }
    var window := windows[windowId];
    if window.imeAllowed {
      proxy.Enable();
      proxy.SetSurroundingText(PLACEHOLDER_SURROUNDING, 1, 1);
      proxy.SetContentTypeByPurpose(window.imePurpose);
      proxy.Commit();
      sink.PushWindowEvent(Enabled, windowId);
    }
    proxy.WindowTextInputEntered(windowId);
  }

  method HandleLeave(data: TextInputDataInner, proxy: TextInputProxy, sink: EventsSink,
                     windows: Registry, surface: SurfaceId)
    modifies data, proxy, sink
    ensures Performed(data, proxy, sink, LeaveStep(old(data.Snapshot()), windows, surface))
  {
    data.surface := None;
    // A disable is always issued, whether or not enable was.
    proxy.Disable();
    proxy.Commit();
    var windowId := MakeWid(surface);
    // The surface of a leave may already be gone.
    if windowId !in windows {
      return;
    }
    proxy.WindowTextInputLeft(windowId);
    sink.PushWindowEvent(Disabled, windowId);
  }

  method HandlePreeditString(data: TextInputDataInner, text: Option<seq<byte>>, cursorBegin: int32, cursorEnd: int32)
    modifies data
    ensures data.Snapshot() == PreeditStringStep(old(data.Snapshot()), text, cursorBegin, cursorEnd).next
  {
    var t := text.GetOr([]);
    var b := CursorFromOffset(t, cursorBegin);
    var e := CursorFromOffset(t, cursorEnd);
    data.pendingPreedit := Some(Preedit.Preedit(t, b, e));
  }

  method HandleCommitString(data: TextInputDataInner, text: Option<seq<byte>>)
    modifies data
    ensures data.Snapshot() == CommitStringStep(old(data.Snapshot()), text).next
  {
    data.pendingPreedit := None;
    data.pendingCommit := text;
  }

  method HandleDone(data: TextInputDataInner, sink: EventsSink)
    modifies data, sink
    ensures data.Snapshot() == DoneStep(old(data.Snapshot())).next
    ensures sink.events == old(sink.events) + DoneStep(old(data.Snapshot())).events
  {
    if data.surface.None? {
      return;
    }
    var windowId := MakeWid(data.surface.value);
    sink.PushWindowEvent(RetrieveSurroundingText, windowId);
    // The preedit is cleared at the start of done.
    sink.PushWindowEvent(Ime.Preedit([], None), windowId);
    var delete := data.TakePendingSurroundingDelete();
    if delete.Some? {
      sink.PushWindowEvent(Ime.DeleteSurroundingText(delete.value.beforeLength as nat,
                                                     delete.value.afterLength as nat), windowId);
    }
    var commit := data.TakePendingCommit();
    if commit.Some? {
      sink.PushWindowEvent(Ime.Commit(commit.value, None, None), windowId);
    }
    var preedit := data.TakePendingPreedit();
    if preedit.Some? {
      var cursorRange := CursorRange(preedit.value);
      sink.PushWindowEvent(Ime.Preedit(preedit.value.text, cursorRange), windowId);
    }
  }

  /**
   * `Dispatch<ZwpTextInputV3, TextInputData, WinitState>::event`: handle one
   * event against the current windows. `delete_surrounding_text` reaches
   * `unimplemented!()` and panics before touching anything.
   */
  method Event(data: TextInputDataInner, proxy: TextInputProxy, sink: EventsSink,
               windows: Registry, event: TextInputEvent) returns (outcome: Outcome)
    modifies data, proxy, sink
    ensures Performed(data, proxy, sink, Step(old(data.Snapshot()), windows, event))
    ensures outcome == Step(old(data.Snapshot()), windows, event).outcome
  {
    match event
    case Enter(surface) =>
      HandleEnter(data, proxy, sink, windows, surface);
      outcome := Returned;
    case Leave(surface) =>
      HandleLeave(data, proxy, sink, windows, surface);
      outcome := Returned;
    case PreeditString(text, cursorBegin, cursorEnd) =>
      HandlePreeditString(data, text, cursorBegin, cursorEnd);
      outcome := Returned;
    case CommitString(text) =>
      HandleCommitString(data, text);
      outcome := Returned;
    case Done(_) =>
      HandleDone(data, sink);
      outcome := Returned;
    case DeleteSurroundingText(_, _) =>
      outcome := Panicked;
    case Unrecognised =>
      outcome := Returned;
  }

  /**
   * A client of the handler: a window that allows IME gains focus, a
   * preedit and then a commit arrive, then done. The commit supersedes the
   * preedit, so only the empty preedit and the commit reach the window.
   */
  method CommitSupersedesScenario(surface: SurfaceId, purpose: ImePurpose,
                                  preedit: seq<byte>, x: seq<byte>, serial: u32)
    returns (requests: seq<Request>, events: seq<WindowEventPush>)
    ensures requests == [Request.Enable, Request.SetSurroundingText([0x20], 1, 1), ContentTypeRequest(purpose),
                         Request.Commit, TextInputEntered(surface)]
    ensures events == [Push(Enabled, surface), Push(RetrieveSurroundingText, surface),
                       Push(Ime.Preedit([], None), surface), Push(Ime.Commit(x, None, None), surface)]
  {
    var data := new TextInputDataInner();
    var proxy := new TextInputProxy();
    var sink := new EventsSink();
    var windows := map[MakeWid(surface) := Window(true, purpose)];
    var outcome := Event(data, proxy, sink, windows, Enter(surface));
    outcome := Event(data, proxy, sink, windows, PreeditString(Some(preedit), 0, 0));
    outcome := Event(data, proxy, sink, windows, CommitString(Some(x)));
    outcome := Event(data, proxy, sink, windows, Done(serial));
    requests, events := proxy.requests, sink.events;
  }
}
