/**
 * The text-input event handler as a function of its record: for each
 * `zwp_text_input_v3` event, the new record, the requests issued, the window
 * events pushed, and whether the handler returned or panicked. The lemmas
 * state the properties of the handler over single events and over traces.
 */
module TextInputModel {
  import opened Base
  import opened Utf8
  import opened ContentType
  import opened Protocol

  /** A staged preedit; cursors are byte offsets into `text`, `None` when unknown. */
  datatype Preedit = Preedit(text: seq<byte>, cursorBegin: Option<nat>, cursorEnd: Option<nat>)

  /** A staged delete of surrounding text, in bytes before and after the cursor. */
  datatype SurroundingDelete = SurroundingDelete(beforeLength: u32, afterLength: u32)

  /** The value of a `TextInputDataInner` record (its live fields). */
  datatype Inner = Inner(
    surface: Option<SurfaceId>,
    pendingCommit: Option<seq<byte>>,
    pendingPreedit: Option<Preedit>,
    pendingSurroundingDelete: Option<SurroundingDelete>)

  /** The record as `#[derive(Default)]` creates it. */
  function Default(): (s: Inner) {
    Inner(None, None, None, None)
  }

  /** How one call of the handler ends; `Panicked` is `unimplemented!()`. */
  datatype Outcome = Returned | Panicked

  datatype StepResult = StepResult(
    next: Inner,
    requests: seq<Request>,
    events: seq<WindowEventPush>,
    outcome: Outcome)

  /** The surrounding text sent on enter: a single space. */
  const PLACEHOLDER_SURROUNDING: seq<byte> := [0x20]

  /** The request `set_content_type_by_purpose(purpose)` issues. */
  function ContentTypeRequest(purpose: ImePurpose): (r: Request) {
    SetContentType(ContentTypeFor(purpose).0, ContentTypeFor(purpose).1)
  }

  function EnterStep(s: Inner, windows: Registry, surface: SurfaceId): (r: StepResult) {
    var windowId := MakeWid(surface);
    var next := s.(surface := Some(surface));
    if windowId !in windows then
      StepResult(next, [], [], Returned)
    else
      var window := windows[windowId];
      if window.imeAllowed then
        StepResult(next,
          [Enable, SetSurroundingText(PLACEHOLDER_SURROUNDING, 1, 1),
           ContentTypeRequest(window.imePurpose), Request.Commit, TextInputEntered(windowId)],
          [Push(Enabled, windowId)],
          Returned)
      else
        StepResult(next, [TextInputEntered(windowId)], [], Returned)
  }

  function LeaveStep(s: Inner, windows: Registry, surface: SurfaceId): (r: StepResult) {
    var next := s.(surface := None);
    var windowId := MakeWid(surface);
    if windowId !in windows then
      StepResult(next, [Disable, Request.Commit], [], Returned)
    else
      StepResult(next, [Disable, Request.Commit, TextInputLeft(windowId)], [Push(Disabled, windowId)], Returned)
  }

  /** The preedit a `preedit_string` event stages. */
  function StagedPreedit(text: Option<seq<byte>>, cursorBegin: int32, cursorEnd: int32): (p: Preedit) {
    var t := text.GetOr([]);
    Preedit.Preedit(t, CursorFromOffset(t, cursorBegin), CursorFromOffset(t, cursorEnd))
  }

  function PreeditStringStep(s: Inner, text: Option<seq<byte>>, cursorBegin: int32, cursorEnd: int32): (r: StepResult) {
    StepResult(s.(pendingPreedit := Some(StagedPreedit(text, cursorBegin, cursorEnd))), [], [], Returned)
  }

  function CommitStringStep(s: Inner, text: Option<seq<byte>>): (r: StepResult) {
    StepResult(s.(pendingPreedit := None, pendingCommit := text), [], [], Returned)
  }

  /** The cursor range reported for a preedit: `(begin, end.unwrap_or(begin))` when begin is known. */
  function CursorRange(p: Preedit): (range: Option<(nat, nat)>) {
    match p.cursorBegin
    case Some(b) => Some((b, p.cursorEnd.GetOr(b)))
    case None => None
  }

  /** The window events a `done` flushes, in order, for the given window. */
  function FlushEvents(s: Inner, windowId: WindowId): (events: seq<WindowEventPush>) {
    var delete := match s.pendingSurroundingDelete
      case Some(d) => [Push(Ime.DeleteSurroundingText(d.beforeLength as nat, d.afterLength as nat), windowId)]
      case None => [];
    var commit := match s.pendingCommit
      case Some(text) => [Push(Ime.Commit(text, None, None), windowId)]
      case None => [];
    var preedit := match s.pendingPreedit
      case Some(p) => [Push(Ime.Preedit(p.text, CursorRange(p)), windowId)]
      case None => [];
    [Push(RetrieveSurroundingText, windowId), Push(Ime.Preedit([], None), windowId)] + delete + commit + preedit
  }

  function DoneStep(s: Inner): (r: StepResult) {
    match s.surface
    case None => StepResult(s, [], [], Returned)
    case Some(surface) =>
      StepResult(s.(pendingSurroundingDelete := None, pendingCommit := None, pendingPreedit := None),
                 [], FlushEvents(s, MakeWid(surface)), Returned)
  }

  /** `Dispatch<ZwpTextInputV3, ..>::event` on one event. */
  function Step(s: Inner, windows: Registry, event: TextInputEvent): (r: StepResult) {
    match event
    case Enter(surface) => EnterStep(s, windows, surface)
    case Leave(surface) => LeaveStep(s, windows, surface)
    case PreeditString(text, b, e) => PreeditStringStep(s, text, b, e)
    case CommitString(text) => CommitStringStep(s, text)
    case Done(_) => DoneStep(s)
    case DeleteSurroundingText(_, _) => StepResult(s, [], [], Panicked)
    case Unrecognised => StepResult(s, [], [], Returned)
  }

  /** One event together with the windows that exist when it is handled. */
  datatype Delivery = Delivery(windows: Registry, event: TextInputEvent)

  datatype RunResult = RunResult(
    state: Inner,
    requests: seq<Request>,
    events: seq<WindowEventPush>,
    panicked: bool)

  /** The handler on one delivered event. */
  function Deliver(s: Inner, d: Delivery): (r: StepResult) {
    Step(s, d.windows, d.event)
  }

  /**
   * Dispatching a queue of events in order with the handler `step`; a panic
   * ends the dispatch thread, so nothing after it takes effect.
   */
  function RunWith(step: (Inner, Delivery) -> StepResult, s: Inner, trace: seq<Delivery>): (r: RunResult)
    decreases |trace|
  {
    if trace == [] then
      RunResult(s, [], [], false)
    else
      var r := step(s, trace[0]);
      if r.outcome == Panicked then
        RunResult(s, [], [], true)
      else
        var rest := RunWith(step, r.next, trace[1..]);
        RunResult(rest.state, r.requests + rest.requests, r.events + rest.events, rest.panicked)
  }

  /** Dispatching a queue of events to the text-input handler. */
  function Run(s: Inner, trace: seq<Delivery>): (r: RunResult) {
    RunWith(Deliver, s, trace)
  }

  // ---------------------------------------------------------------------------
  // Invariants of the record

  ghost predicate PreeditWellFormed(p: Preedit) {
    (p.cursorBegin.Some? ==> IsCharBoundary(p.text, p.cursorBegin.value)) &&
    (p.cursorEnd.Some? ==> IsCharBoundary(p.text, p.cursorEnd.value))
  }

  /**
   * Holds of every record the handler can reach from the default one: a
   * staged preedit has its cursors on character boundaries, and no
   * surrounding-text delete is ever staged.
   */
  ghost predicate Invariant(s: Inner) {
    s.pendingSurroundingDelete.None? &&
    (s.pendingPreedit.Some? ==> PreeditWellFormed(s.pendingPreedit.value))
  }

  /** What every pushed event satisfies: no delete, and a preedit range lies on boundaries of its text. */
  ghost predicate SafeEvent(p: WindowEventPush) {
    !p.event.DeleteSurroundingText? &&
    (p.event.Preedit? && p.event.cursor.Some? ==>
       IsCharBoundary(p.event.text, p.event.cursor.value.0) &&
       IsCharBoundary(p.event.text, p.event.cursor.value.1))
  }

  ghost predicate AllSafe(events: seq<WindowEventPush>) {
    forall i :: 0 <= i < |events| ==> SafeEvent(events[i])
  }

  lemma StagedPreeditWellFormed(text: Option<seq<byte>>, b: int32, e: int32)
    ensures PreeditWellFormed(StagedPreedit(text, b, e))
  {
  }

  lemma StepPreservesInvariant(s: Inner, windows: Registry, event: TextInputEvent)
    requires Invariant(s)
    ensures Invariant(Step(s, windows, event).next)
    ensures AllSafe(Step(s, windows, event).events)
  {
  }

  lemma {:induction false} RunPreservesInvariant(s: Inner, trace: seq<Delivery>)
    requires Invariant(s)
    ensures Invariant(Run(s, trace).state)
    ensures AllSafe(Run(s, trace).events)
    decreases |trace|
  {
    if trace != [] {
      var r := Step(s, trace[0].windows, trace[0].event);
      StepPreservesInvariant(s, trace[0].windows, trace[0].event);
      assert trace == [trace[0]] + trace[1..];
      RunCons(s, trace[0], trace[1..]);
      if r.outcome != Panicked {
        RunPreservesInvariant(r.next, trace[1..]);
        var rest := Run(r.next, trace[1..]);
        assert Run(s, trace).events == r.events + rest.events;
        forall i | 0 <= i < |r.events| + |rest.events|
          ensures SafeEvent((r.events + rest.events)[i])
        {
          if i >= |r.events| {
            assert (r.events + rest.events)[i] == rest.events[i - |r.events|];
          }
        }
      }
    }
  }

  /**
   * From the default record, whatever the events and windows: no
   * surrounding-text delete is ever staged or pushed, and every preedit pushed
   * carries a cursor range on character boundaries of its text.
   */
  lemma ReachableInvariant(trace: seq<Delivery>)
    ensures Invariant(Run(Default(), trace).state)
    ensures Run(Default(), trace).state.pendingSurroundingDelete.None?
    ensures forall i :: 0 <= i < |Run(Default(), trace).events| ==>
              !Run(Default(), trace).events[i].event.DeleteSurroundingText?
    ensures AllSafe(Run(Default(), trace).events)
  {
    RunPreservesInvariant(Default(), trace);
    var es := Run(Default(), trace).events;
    forall i | 0 <= i < |es| ensures !es[i].event.DeleteSurroundingText? {
      assert SafeEvent(es[i]);
    }
  }

  // ---------------------------------------------------------------------------
  // Runs of several events

  /** Handling `d` then `rest`: the definition of `Run` on a non-empty trace. */
  lemma RunCons(s: Inner, d: Delivery, rest: seq<Delivery>)
    ensures var r := Step(s, d.windows, d.event);
            var rr := Run(r.next, rest);
            Run(s, [d] + rest) ==
              if r.outcome == Panicked then RunResult(s, [], [], true)
              else RunResult(rr.state, r.requests + rr.requests, r.events + rr.events, rr.panicked)
  {
  }

  /** Handling `a` then `b` is handling `a + b`, unless `a` panics; for any handler. */
  lemma {:induction false} RunWithAppend(step: (Inner, Delivery) -> StepResult, s: Inner,
                                         a: seq<Delivery>, b: seq<Delivery>)
    ensures var ra := RunWith(step, s, a);
            var rb := RunWith(step, ra.state, b);
            RunWith(step, s, a + b) ==
              if ra.panicked then ra
              else RunResult(rb.state, ra.requests + rb.requests, ra.events + rb.events, rb.panicked)
    decreases |a|
  {
    if a == [] {
      assert a + b == b;
    } else {
      assert (a + b)[0] == a[0];
      assert (a + b)[1..] == a[1..] + b;
      var r := step(s, a[0]);
      if r.outcome != Panicked {
        RunWithAppend(step, r.next, a[1..], b);
        var ra' := RunWith(step, r.next, a[1..]);
        var rb := RunWith(step, ra'.state, b);
        if !ra'.panicked {
          assert r.requests + (ra'.requests + rb.requests) == (r.requests + ra'.requests) + rb.requests;
          assert r.events + (ra'.events + rb.events) == (r.events + ra'.events) + rb.events;
        }
      }
    }
  }

  lemma RunAppend(s: Inner, a: seq<Delivery>, b: seq<Delivery>)
    ensures var ra := Run(s, a);
            var rb := Run(ra.state, b);
            Run(s, a + b) ==
              if ra.panicked then ra
              else RunResult(rb.state, ra.requests + rb.requests, ra.events + rb.events, rb.panicked)
  {
    RunWithAppend(Deliver, s, a, b);
  }

  lemma RunSingle(s: Inner, d: Delivery)
    ensures var r := Step(s, d.windows, d.event);
            Run(s, [d]) == if r.outcome == Panicked then RunResult(s, [], [], true)
                           else RunResult(r.next, r.requests, r.events, false)
  {
    RunCons(s, d, []);
    assert [d] + [] == [d];
  }

  /** Handling stops at the first `delete_surrounding_text`: nothing after it takes effect. */
  lemma DeleteSurroundingTextAborts(s: Inner, windows: Registry, before: u32, after: u32, rest: seq<Delivery>)
    ensures Run(s, [Delivery(windows, TextInputEvent.DeleteSurroundingText(before, after))] + rest)
            == RunResult(s, [], [], true)
  {
  }

  // ---------------------------------------------------------------------------
  // Single events

  /**
   * Enter records the focused surface before looking the window up, and
   * touches no pending field. For a known window it calls
   * `text_input_entered`, preceded, when IME is allowed, by enable, the
   * placeholder surrounding text, the content type and a commit; `Enabled`
   * is pushed exactly then. For an unknown window nothing else happens.
   */
  lemma EnterSpec(s: Inner, windows: Registry, surface: SurfaceId)
    ensures var r := EnterStep(s, windows, surface);
            var windowId := MakeWid(surface);
            && r.outcome == Returned
            && r.next == s.(surface := Some(surface))
            && r.next.pendingCommit == s.pendingCommit
            && r.next.pendingPreedit == s.pendingPreedit
            && r.next.pendingSurroundingDelete == s.pendingSurroundingDelete
            && (windowId !in windows ==> r.requests == [] && r.events == [])
            && (windowId in windows && windows[windowId].imeAllowed ==>
                  r.requests == [Enable, SetSurroundingText([0x20], 1, 1),
                                 SetContentType(ContentTypeFor(windows[windowId].imePurpose).0,
                                                ContentTypeFor(windows[windowId].imePurpose).1),
                                 Request.Commit, TextInputEntered(windowId)])
            && (windowId in windows && !windows[windowId].imeAllowed ==>
                  r.requests == [TextInputEntered(windowId)])
            && (r.events == [Push(Enabled, windowId)] <==>
                  windowId in windows && windows[windowId].imeAllowed)
            && (r.events != [Push(Enabled, windowId)] ==> r.events == [])
            && (Enable in r.requests <==> Push(Enabled, windowId) in r.events)
  {
  }

  /**
   * Leave clears the focused surface and always issues disable then commit,
   * whether or not the window is known and whether or not enable was sent.
   * Only for a known window does it call `text_input_left` and push
   * `Disabled`. Pending fields are kept.
   */
  lemma LeaveSpec(s: Inner, windows: Registry, surface: SurfaceId)
    ensures var r := LeaveStep(s, windows, surface);
            var windowId := MakeWid(surface);
            && r.outcome == Returned
            && r.next == s.(surface := None)
            && r.requests[..2] == [Disable, Request.Commit]
            && r.requests == (if windowId in windows then [Disable, Request.Commit, TextInputLeft(windowId)]
                              else [Disable, Request.Commit])
            && (r.events == [Push(Disabled, windowId)] <==> windowId in windows)
            && (windowId !in windows ==> r.events == [])
  {
  }

  /**
   * A preedit string replaces the pending preedit with its text (empty when
   * null); each cursor is kept exactly when the offset is non-negative and a
   * character boundary, so a kept cursor lies within the text. Nothing else
   * changes and the event never fails.
   */
  lemma PreeditStringSpec(s: Inner, text: Option<seq<byte>>, b: int32, e: int32)
    ensures var r := PreeditStringStep(s, text, b, e);
            var t := if text.Some? then text.value else [];
            && r.outcome == Returned && r.requests == [] && r.events == []
            && r.next.surface == s.surface
            && r.next.pendingCommit == s.pendingCommit
            && r.next.pendingSurroundingDelete == s.pendingSurroundingDelete
            && r.next.pendingPreedit.Some?
            && r.next.pendingPreedit.value.text == t
            && (r.next.pendingPreedit.value.cursorBegin.Some? <==> 0 <= b && IsCharBoundary(t, b as int))
            && (r.next.pendingPreedit.value.cursorEnd.Some? <==> 0 <= e && IsCharBoundary(t, e as int))
            && (r.next.pendingPreedit.value.cursorBegin.Some? ==>
                  r.next.pendingPreedit.value.cursorBegin.value == b as int <= |t|)
            && (r.next.pendingPreedit.value.cursorEnd.Some? ==>
                  r.next.pendingPreedit.value.cursorEnd.value == e as int <= |t|)
  {
  }

  /** A commit string drops the pending preedit and replaces the pending commit (clearing it when null). */
  lemma CommitStringSpec(s: Inner, text: Option<seq<byte>>)
    ensures var r := CommitStringStep(s, text);
            && r.outcome == Returned && r.requests == [] && r.events == []
            && r.next.pendingPreedit.None?
            && r.next.pendingCommit == text
            && r.next.surface == s.surface
            && r.next.pendingSurroundingDelete == s.pendingSurroundingDelete
  {
  }

  /**
   * With a focused surface, done pushes to that surface's window, in order:
   * retrieve surrounding text, an empty preedit, the pending delete, the
   * pending commit, the pending preedit (each only when staged). Afterwards
   * nothing is pending and the focus is unchanged; no request is issued.
   */
  lemma DoneFlushOrder(s: Inner, windows: Registry, serial: u32)
    requires s.surface.Some?
    ensures var r := Step(s, windows, Done(serial));
            var w := MakeWid(s.surface.value);
            && r.outcome == Returned && r.requests == []
            && r.next == Inner(s.surface, None, None, None)
            && r.events ==
                 [Push(RetrieveSurroundingText, w), Push(Ime.Preedit([], None), w)]
                 + (if s.pendingSurroundingDelete.Some?
                    then [Push(Ime.DeleteSurroundingText(s.pendingSurroundingDelete.value.beforeLength as nat,
                                                         s.pendingSurroundingDelete.value.afterLength as nat), w)]
                    else [])
                 + (if s.pendingCommit.Some? then [Push(Ime.Commit(s.pendingCommit.value, None, None), w)] else [])
                 + (if s.pendingPreedit.Some?
                    then [Push(Ime.Preedit(s.pendingPreedit.value.text, CursorRange(s.pendingPreedit.value)), w)]
                    else [])
            && |r.events| == 2 + (if s.pendingSurroundingDelete.Some? then 1 else 0)
                               + (if s.pendingCommit.Some? then 1 else 0)
                               + (if s.pendingPreedit.Some? then 1 else 0)
            && (forall i :: 0 <= i < |r.events| ==> r.events[i].window == w)
  {
  }

  /** Without a focused surface, done is dropped: nothing is pushed and every field is kept. */
  lemma DoneWithoutFocus(s: Inner, windows: Registry, serial: u32)
    requires s.surface.None?
    ensures Step(s, windows, Done(serial)) == StepResult(s, [], [], Returned)
  {
  }

  /** A second done after a flush pushes only the two fixed events. */
  lemma DoneTwice(s: Inner, w1: Registry, w2: Registry, n1: u32, n2: u32)
    requires s.surface.Some?
    ensures var wid := MakeWid(s.surface.value);
            var r := Run(s, [Delivery(w1, Done(n1)), Delivery(w2, Done(n2))]);
            && r.state == Inner(s.surface, None, None, None)
            && !r.panicked
            && r.events == FlushEvents(s, wid)
                           + [Push(RetrieveSurroundingText, wid), Push(Ime.Preedit([], None), wid)]
  {
    var d1, d2 := Delivery(w1, Done(n1)), Delivery(w2, Done(n2));
    assert [d1, d2] == [d1] + [d2];
    RunCons(s, d1, [d2]);
    RunSingle(Step(s, w1, d1.event).next, d2);
  }

  /** The cursor range: `(b, e)` when both are known, `(b, b)` when only `b` is, absent when `b` is not. */
  lemma CursorRangeCases(p: Preedit)
    ensures p.cursorBegin.Some? && p.cursorEnd.Some? ==>
              CursorRange(p) == Some((p.cursorBegin.value, p.cursorEnd.value))
    ensures p.cursorBegin.Some? && p.cursorEnd.None? ==>
              CursorRange(p) == Some((p.cursorBegin.value, p.cursorBegin.value))
    ensures CursorRange(p).None? <==> p.cursorBegin.None?
  {
  }

  /**
   * A preedit string with offsets `b`, `e` followed by done reports the
   * range `(b, e)` when both are character boundaries of the text, `(b, b)`
   * when only `b` is, and no range when `b` is not (a negative offset included).
   */
  lemma PreeditThenDone(s: Inner, w1: Registry, w2: Registry, t: seq<byte>, b: int32, e: int32, serial: u32)
    requires s.surface.Some?
    ensures |Run(s, [Delivery(w1, PreeditString(Some(t), b, e)), Delivery(w2, Done(serial))]).events| >= 3
    ensures var r := Run(s, [Delivery(w1, PreeditString(Some(t), b, e)), Delivery(w2, Done(serial))]);
            var last := r.events[|r.events| - 1];
            var bOk := 0 <= b && IsCharBoundary(t, b as int);
            var eOk := 0 <= e && IsCharBoundary(t, e as int);
            && last.event.Preedit? && last.event.text == t
            && (bOk && eOk ==> last.event.cursor == Some((b as int, e as int)))
            && (bOk && !eOk ==> last.event.cursor == Some((b as int, b as int)))
            && (!bOk ==> last.event.cursor.None?)
  {
    var d1, d2 := Delivery(w1, PreeditString(Some(t), b, e)), Delivery(w2, Done(serial));
    assert [d1, d2] == [d1] + [d2];
    RunCons(s, d1, [d2]);
    RunSingle(Step(s, w1, d1.event).next, d2);
  }

  /**
   * A commit string supersedes a preedit staged before it in the same
   * transaction: preedit, commit "x", done pushes retrieve, the empty
   * preedit and the commit, and no other preedit.
   */
  lemma CommitSupersedesPreedit(s: Inner, w1: Registry, w2: Registry, w3: Registry,
                                t: Option<seq<byte>>, b: int32, e: int32, x: seq<byte>, serial: u32)
    requires s.surface.Some? && s.pendingSurroundingDelete.None?
    ensures var wid := MakeWid(s.surface.value);
            var r := Run(s, [Delivery(w1, PreeditString(t, b, e)), Delivery(w2, CommitString(Some(x))),
                             Delivery(w3, Done(serial))]);
            && r.events == [Push(RetrieveSurroundingText, wid), Push(Ime.Preedit([], None), wid),
                            Push(Ime.Commit(x, None, None), wid)]
            && r.requests == []
            && r.state == Inner(s.surface, None, None, None)
            && !r.panicked
  {
    var d1, d2, d3 := Delivery(w1, PreeditString(t, b, e)), Delivery(w2, CommitString(Some(x))), Delivery(w3, Done(serial));
    var s1 := Step(s, w1, d1.event).next;
    var s2 := Step(s1, w2, d2.event).next;
    assert [d1, d2, d3] == [d1] + ([d2] + [d3]);
    RunCons(s, d1, [d2] + [d3]);
    RunCons(s1, d2, [d3]);
    RunSingle(s2, d3);
  }

  /** A run of preedit strings only replaces the pending preedit: the last one wins. */
  lemma {:induction false} PreeditsOnlyStage(s: Inner, ps: seq<Delivery>)
    requires ps != []
    requires forall i :: 0 <= i < |ps| ==> ps[i].event.PreeditString?
    ensures var last := ps[|ps| - 1].event;
            Run(s, ps) == RunResult(
              s.(pendingPreedit := Some(StagedPreedit(last.text, last.cursorBegin, last.cursorEnd))),
              [], [], false)
    decreases |ps|
  {
    var r := Step(s, ps[0].windows, ps[0].event);
    assert ps == [ps[0]] + ps[1..];
    RunCons(s, ps[0], ps[1..]);
    if |ps| > 1 {
      assert forall i :: 0 <= i < |ps[1..]| ==> ps[1..][i] == ps[i + 1];
      PreeditsOnlyStage(r.next, ps[1..]);
      assert ps[1..][|ps[1..]| - 1] == ps[|ps| - 1];
    } else {
      assert ps[1..] == [];
    }
  }

  /**
   * Any run of preedit strings followed by done flushes exactly one
   * non-empty preedit: the text and cursors of the last one, after the
   * commit staged before them, if any.
   */
  lemma LastPreeditWins(s: Inner, ps: seq<Delivery>, w: Registry, serial: u32)
    requires s.surface.Some? && s.pendingSurroundingDelete.None?
    requires ps != []
    requires forall i :: 0 <= i < |ps| ==> ps[i].event.PreeditString?
    ensures var last := ps[|ps| - 1].event;
            var p := StagedPreedit(last.text, last.cursorBegin, last.cursorEnd);
            var wid := MakeWid(s.surface.value);
            Run(s, ps + [Delivery(w, Done(serial))]).events ==
              [Push(RetrieveSurroundingText, wid), Push(Ime.Preedit([], None), wid)]
              + (if s.pendingCommit.Some? then [Push(Ime.Commit(s.pendingCommit.value, None, None), wid)] else [])
              + [Push(Ime.Preedit(p.text, CursorRange(p)), wid)]
  {
    PreeditsOnlyStage(s, ps);
    RunAppend(s, ps, [Delivery(w, Done(serial))]);
    RunSingle(Run(s, ps).state, Delivery(w, Done(serial)));
  }

  /** Leave then done: the transaction is dropped and what was pending stays pending. */
  lemma LeaveThenDoneDropped(s: Inner, w1: Registry, w2: Registry, surface: SurfaceId, serial: u32)
    ensures var r := Run(s, [Delivery(w1, Leave(surface)), Delivery(w2, Done(serial))]);
            && r.state == s.(surface := None)
            && r.events == LeaveStep(s, w1, surface).events
            && !r.panicked
  {
    var d1, d2 := Delivery(w1, Leave(surface)), Delivery(w2, Done(serial));
    assert [d1, d2] == [d1] + [d2];
    RunCons(s, d1, [d2]);
    RunSingle(s.(surface := None), d2);
  }

  /**
   * Focus on a window that disallows IME is still recorded: no enable is
   * issued and no `Enabled` pushed, yet a following done is accepted and
   * flushes to that window, including a commit or preedit kept from before.
   */
  lemma EnterDisallowedThenDone(s: Inner, w1: Registry, w2: Registry, surface: SurfaceId, serial: u32)
    requires MakeWid(surface) in w1 && !w1[MakeWid(surface)].imeAllowed
    ensures var wid := MakeWid(surface);
            var r := Run(s, [Delivery(w1, Enter(surface)), Delivery(w2, Done(serial))]);
            && r.requests == [TextInputEntered(wid)]
            && r.events == FlushEvents(s.(surface := Some(surface)), wid)
            && !r.panicked
            && r.state == Inner(Some(surface), None, None, None)
            && (s.pendingCommit.Some? ==> Push(Ime.Commit(s.pendingCommit.value, None, None), wid) in r.events)
  {
    var d1, d2 := Delivery(w1, Enter(surface)), Delivery(w2, Done(serial));
    assert [d1, d2] == [d1] + [d2];
    RunCons(s, d1, [d2]);
    RunSingle(s.(surface := Some(surface)), d2);
  }

  /** A staged commit is among the events done flushes. */
  lemma FlushCarriesCommit(s: Inner, wid: WindowId)
    requires s.pendingCommit.Some?
    ensures Push(Ime.Commit(s.pendingCommit.value, None, None), wid) in FlushEvents(s, wid)
  {
    var fs := FlushEvents(s, wid);
    var k := if s.pendingSurroundingDelete.Some? then 3 else 2;
    assert fs[k] == Push(Ime.Commit(s.pendingCommit.value, None, None), wid);
  }

  /**
   * Leave keeps pending fields, so what was staged before losing focus is
   * flushed to whichever surface is focused at the next done.
   */
  lemma PendingCommitSurvivesRefocus(s: Inner, w1: Registry, w2: Registry, w3: Registry,
                                     a: SurfaceId, b: SurfaceId, serial: u32)
    ensures var r := Run(s, [Delivery(w1, Leave(a)), Delivery(w2, Enter(b)), Delivery(w3, Done(serial))]);
            var wid := MakeWid(b);
            && r.events == LeaveStep(s, w1, a).events + EnterStep(s.(surface := None), w2, b).events
                           + FlushEvents(s.(surface := Some(b)), wid)
            && r.state == Inner(Some(b), None, None, None)
            && !r.panicked
            && (s.pendingCommit.Some? ==> Push(Ime.Commit(s.pendingCommit.value, None, None), wid) in r.events)
  {
    var d1, d2, d3 := Delivery(w1, Leave(a)), Delivery(w2, Enter(b)), Delivery(w3, Done(serial));
    var s1, s2 := s.(surface := None), s.(surface := Some(b));
    var wid := MakeWid(b);
    var e1, e2, e3 := LeaveStep(s, w1, a).events, EnterStep(s1, w2, b).events, FlushEvents(s2, wid);
    assert Step(s, w1, d1.event) == LeaveStep(s, w1, a);
    assert Step(s1, w2, d2.event) == EnterStep(s1, w2, b);
    assert EnterStep(s1, w2, b).next == s2;
    assert Step(s2, w3, d3.event).events == e3;
    assert [d1, d2, d3] == [d1] + ([d2] + [d3]);
    RunSingle(s2, d3);
    RunCons(s1, d2, [d3]);
    RunCons(s, d1, [d2] + [d3]);
    assert Run(s, [d1, d2, d3]).events == e1 + (e2 + e3);
    assert e1 + (e2 + e3) == e1 + e2 + e3;
    if s.pendingCommit.Some? {
      FlushCarriesCommit(s2, wid);
    }
  }

  /** Done's serial is not used. */
  lemma DoneIgnoresSerial(s: Inner, windows: Registry, n1: u32, n2: u32)
    ensures Step(s, windows, Done(n1)) == Step(s, windows, Done(n2))
  {
  }

  /** An unrecognised event changes nothing and emits nothing. */
  lemma UnrecognisedIsNoOp(s: Inner, windows: Registry)
    ensures Step(s, windows, Unrecognised) == StepResult(s, [], [], Returned)
  {
  }
}
