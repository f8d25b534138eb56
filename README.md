# winit Wayland text-input (`zwp_text_input_v3`) handler — a Dafny model

This project models the client side of the Wayland `text-input-unstable-v3`
input-method protocol as winit's Wayland backend implements it: the handler
that receives `zwp_text_input_v3` events, keeps a per-object record of the
focused surface and of the staged (pending) preedit, commit and
surrounding-text delete, issues requests on the text-input object, and pushes
`WindowEvent::Ime` events to the application's event sink.

The protocol is double-buffered: `preedit_string`, `commit_string` and
`delete_surrounding_text` only stage intent, and `done` flushes what is staged,
in a fixed order, to the focused window. `enter` and `leave` move the focus,
enable or disable the input method, and tell the window.

Files:

- `base.dfy` — `Option`, and the Rust integer types the protocol carries (`u8`, `i32`, `u32`).
- `utf8.dfy` — `str::is_char_boundary`, the validation of a preedit cursor
  offset, and a reference definition (UTF-8 encoding of scalar values) that
  `is_char_boundary` is proved against.
- `content_type.dfy` — the window's `ImePurpose` and the content hint/purpose
  pair announced for it.
- `protocol.dfy` — events received, requests issued, `Ime` events pushed, the window registry.
- `text_input_model.dfy` — the handler as a function of its record
  (`Step`, one event; `Run`, a queue of events) and the lemmas about it.
- `text_input.dfy` — the handler as the source runs it: the record
  `TextInputDataInner` as a class whose fields are assigned in place and drained
  with `take`, the text-input proxy and the event sink as classes with
  append-only logs, and one method per event arm, each proved equal in effect
  to the function in `text_input_model.dfy`.

Modelling choices:

- Strings are their UTF-8 bytes, because preedit cursors are byte offsets. A
  null string on the wire is `None`.
- Surfaces and windows are opaque numbers; `make_wid` is the identity. The
  windows that exist are a map from id to the two things the handler asks of a
  window: whether IME is allowed and its purpose. Each event is delivered
  together with the registry as it is at that moment.
- The requests on the text-input object go to one ordered log; the window
  callbacks `text_input_entered` and `text_input_left` are recorded in that log
  too. The events pushed to the sink go to a second log.
- `delete_surrounding_text` reaches `unimplemented!()` before it stages
  anything. It is modelled as the outcome `Panicked`: no field changes and
  nothing is issued or pushed, and a queue of events stops there (`Run`).
- `delete_surrounding_text` is double-buffered in the text-input-unstable-v3
  protocol (it takes effect on `done`), but this code reaches `unimplemented!()`
  (mod.rs:197) before its staging assignment, so the model never stages a
  delete and the delete step of `done` (mod.rs:158-167) never fires
  (`ReachableInvariant`).
- `leave` clears only the focused surface and keeps every pending field
  (mod.rs:92-115): `PendingCommitSurvivesRefocus` shows a commit staged
  before a leave being flushed to the window focused at the next `done`.

## Model

The functions `EnterStep`, `LeaveStep`, `PreeditStringStep`, `CommitStringStep`,
`DoneStep` (with `FlushEvents` and `CursorRange`) and `Step` in `TextInputModel`
are the value-level definitions of the handler's arms; the rows for the `*Spec`
lemmas and the `TextInput.Handle*` methods below state what they do.

| member | source | states |
|---|---|---|
| `Utf8.IsCharBoundary` | src/platform_impl/linux/wayland/seat/text_input/mod.rs:125 | offset 0 and the length are boundaries, a boundary never lies past the end, and an inner offset is one exactly when the byte there is not a continuation byte (0x80–0xBF) |
| `Utf8.CursorFromOffset` | src/platform_impl/linux/wayland/seat/text_input/mod.rs:123-128 | a cursor is present exactly when the `i32` offset is non-negative and a character boundary of the text; a present cursor equals the offset and is at most the text length; a bad offset gives no cursor, never a failure |
| `Utf8.BoundaryIsCharStart` | src/platform_impl/linux/wayland/seat/text_input/mod.rs:123-128 | on the UTF-8 encoding of any sequence of scalar values, `is_char_boundary` holds exactly at the offsets where a character starts or at the end |
| `Utf8.CursorOnCharStart` | src/platform_impl/linux/wayland/seat/text_input/mod.rs:123-128 | on well-formed text, a preedit cursor is kept exactly when its offset is non-negative and the start of a character or the end |
| `ContentType.ContentTypeFor` | src/platform_impl/linux/wayland/seat/text_input/mod.rs:218-223 | the mapping is total; the sensitive-data hint is sent exactly for a password field and otherwise no hint is sent |
| `ContentType.ContentTypeRoundTrip` | src/platform_impl/linux/wayland/seat/text_input/mod.rs:219-223 | Normal, Password and Terminal are announced as the protocol purposes Normal, Password and Terminal: the announced purpose gives back the window's purpose |
| `ContentType.ContentTypeInjective` | src/platform_impl/linux/wayland/seat/text_input/mod.rs:219-223 | different window purposes are announced as different content types |
| `TextInput.TextInputProxy.SetContentTypeByPurpose` | src/platform_impl/linux/wayland/seat/text_input/mod.rs:217-225 | issues exactly one `set_content_type` request, carrying the mapped hint and purpose |
| `TextInputModel.EnterSpec` | src/platform_impl/linux/wayland/seat/text_input/mod.rs:68-91 | focus is recorded before the window lookup and pending fields are untouched; an unknown window gets nothing else; a known window gets `text_input_entered`, preceded when IME is allowed by enable, `set_surrounding_text(" ", 1, 1)`, the content type and commit; `Enabled` is pushed exactly when IME is allowed on a known window, and exactly when enable is issued |
| `TextInputModel.LeaveSpec` | src/platform_impl/linux/wayland/seat/text_input/mod.rs:92-115 | focus is cleared and disable then commit are always issued, even for an unknown window; only a known window gets `text_input_left` and `Disabled`; pending fields are kept |
| `TextInputModel.PreeditStringSpec` | src/platform_impl/linux/wayland/seat/text_input/mod.rs:116-135 | the pending preedit becomes the given text (empty when null); each cursor is present exactly when its offset is non-negative and a character boundary, and then lies within the text; nothing else changes and nothing is emitted |
| `TextInputModel.CommitStringSpec` | src/platform_impl/linux/wayland/seat/text_input/mod.rs:136-140 | the pending preedit is dropped and the pending commit becomes the given text (cleared when null); nothing else changes and nothing is emitted |
| `TextInputModel.DoneFlushOrder` | src/platform_impl/linux/wayland/seat/text_input/mod.rs:141-192 | with focus, done pushes to the focused window, in order: retrieve surrounding text, an empty preedit with no cursor, the delete if staged, the commit (no selection, no compose region) if staged, the preedit with its cursor range if staged; afterwards nothing is pending, focus is unchanged and no request is issued |
| `TextInputModel.DoneWithoutFocus` | src/platform_impl/linux/wayland/seat/text_input/mod.rs:143-146 | without focus, done pushes nothing and every field, pending ones included, is kept |
| `TextInputModel.DoneTwice` | src/platform_impl/linux/wayland/seat/text_input/mod.rs:141-192 | done drains what it flushes: two dones in a row push the first one's full flush followed by only retrieve surrounding text and the empty preedit, and leave nothing pending |
| `TextInputModel.DoneIgnoresSerial` | src/platform_impl/linux/wayland/seat/text_input/mod.rs:141 | the serial of done has no effect |
| `TextInputModel.CursorRangeCases` | src/platform_impl/linux/wayland/seat/text_input/mod.rs:183-185 | the reported range is `(begin, end)` when both are known, `(begin, begin)` when only begin is, and absent exactly when begin is unknown |
| `TextInputModel.PreeditThenDone` | src/platform_impl/linux/wayland/seat/text_input/mod.rs:116-191 | a preedit with offsets `b`, `e` followed by done ends with that preedit, with range `(b, e)` when both are boundaries, `(b, b)` when only `b` is, and none when `b` is not |
| `TextInputModel.CommitSupersedesPreedit` | src/platform_impl/linux/wayland/seat/text_input/mod.rs:136-139 | preedit, commit "x", done pushes exactly retrieve, the empty preedit and the commit "x": the earlier preedit never reaches the window, and nothing stays pending |
| `TextInputModel.PreeditsOnlyStage` | src/platform_impl/linux/wayland/seat/text_input/mod.rs:116-135 | any run of preedit strings issues and pushes nothing and leaves the last one's preedit pending, all else unchanged |
| `TextInputModel.LastPreeditWins` | src/platform_impl/linux/wayland/seat/text_input/mod.rs:130-191 | any run of preedit strings followed by done pushes retrieve, the empty preedit, the commit staged before them if any, and then exactly one preedit: the text (empty when null) and cursor range of the last |
| `TextInputModel.LeaveThenDoneDropped` | src/platform_impl/linux/wayland/seat/text_input/mod.rs:92-146 | after leave, done is dropped: only leave's events are pushed and what was pending stays pending |
| `TextInputModel.EnterDisallowedThenDone` | src/platform_impl/linux/wayland/seat/text_input/mod.rs:68-91 | focus on a window that disallows IME issues only `text_input_entered` and pushes no `Enabled`, yet a following done is flushed to that window in full, so a commit or preedit kept from before (leave does not clear them) reaches a window whose IME is not allowed |
| `TextInputModel.PendingCommitSurvivesRefocus` | src/platform_impl/linux/wayland/seat/text_input/mod.rs:92-99 | leave does not clear pending fields: leave, enter, done pushes leave's and enter's events and then the full flush of everything staged before the leave to the newly focused window, leaving nothing pending |
| `TextInputModel.DeleteSurroundingTextAborts` | src/platform_impl/linux/wayland/seat/text_input/mod.rs:193-205 | delete surrounding text panics before staging: no field changes, nothing is issued or pushed, and no later event is handled |
| `TextInputModel.UnrecognisedIsNoOp` | src/platform_impl/linux/wayland/seat/text_input/mod.rs:206-208 | an unrecognised event changes no field and emits nothing |
| `TextInputModel.StagedPreeditWellFormed` | src/platform_impl/linux/wayland/seat/text_input/mod.rs:123-134 | a staged preedit's cursors lie on character boundaries of its text |
| `TextInputModel.StepPreservesInvariant` | src/platform_impl/linux/wayland/seat/text_input/mod.rs:67-209 | every event keeps the invariant (staged cursors on boundaries, no delete staged) and pushes no delete and no preedit with a range off the text's boundaries |
| `TextInputModel.RunPreservesInvariant` | src/platform_impl/linux/wayland/seat/text_input/mod.rs:67-209 | the same over any queue of events, whatever windows exist at each one |
| `TextInputModel.ReachableInvariant` | src/platform_impl/linux/wayland/seat/text_input/mod.rs:158-167 | from the default record, no delete is ever staged, so done's delete step never fires; every pushed preedit range lies on boundaries of its text |
| `TextInputModel.FlushCarriesCommit` | src/platform_impl/linux/wayland/seat/text_input/mod.rs:170-179 | a staged commit is among the events done pushes |
| `TextInputModel.RunAppend` | src/platform_impl/linux/wayland/seat/text_input/mod.rs:56-210 | handling one queue then another is handling their concatenation, unless the first panics |
| `TextInput.TextInputDataInner.constructor` | src/platform_impl/linux/wayland/seat/text_input/mod.rs:234-250 | a new record has no focus and nothing pending |
| `TextInput.TextInputDataInner.TakePendingSurroundingDelete` | src/platform_impl/linux/wayland/seat/text_input/mod.rs:158 | returns the staged delete and clears it, nothing else changes |
| `TextInput.TextInputDataInner.TakePendingCommit` | src/platform_impl/linux/wayland/seat/text_input/mod.rs:170 | returns the staged commit and clears it, nothing else changes |
| `TextInput.TextInputDataInner.TakePendingPreedit` | src/platform_impl/linux/wayland/seat/text_input/mod.rs:182 | returns the staged preedit and clears it, nothing else changes |
| `TextInput.HandleEnter` | src/platform_impl/linux/wayland/seat/text_input/mod.rs:68-91 | the record, the request log and the event sink change exactly as `EnterStep` says |
| `TextInput.HandleLeave` | src/platform_impl/linux/wayland/seat/text_input/mod.rs:92-115 | the record, the request log and the event sink change exactly as `LeaveStep` says |
| `TextInput.HandlePreeditString` | src/platform_impl/linux/wayland/seat/text_input/mod.rs:116-135 | the record changes exactly as `PreeditStringStep` says; nothing is issued or pushed |
| `TextInput.HandleCommitString` | src/platform_impl/linux/wayland/seat/text_input/mod.rs:136-140 | the record changes exactly as `CommitStringStep` says; nothing is issued or pushed |
| `TextInput.HandleDone` | src/platform_impl/linux/wayland/seat/text_input/mod.rs:141-192 | the record and the event sink change exactly as `DoneStep` says; no request is issued |
| `TextInput.Event` | src/platform_impl/linux/wayland/seat/text_input/mod.rs:56-210 | one event changes the record and both logs exactly as `Step` says, and the outcome (returned or panicked) is `Step`'s |
| `TextInput.CommitSupersedesScenario` | src/platform_impl/linux/wayland/seat/text_input/mod.rs:68-191 | through the imperative handler: enter on an IME-allowed window, preedit, commit "x", done issues enable, the placeholder surrounding text, the content type, commit and `text_input_entered`, and pushes `Enabled`, retrieve, the empty preedit and the commit "x" |

## Left out

- `TextInputState::new`, the global bind and `Deref` (mod.rs:26-42): binding over the Wayland connection goes through a foreign library.
- The manager's empty `Dispatch` impl (mod.rs:44-54) and the `delegate_dispatch!` macros (mod.rs:397-398): plumbing with no behaviour.
- The `Mutex` around the record and the locked window registry (mod.rs:65-66, 74, 106): synchronisation only; the record is a plain object and the registry a map. The mutex poisoning a panic leaves behind is not modelled; a queue of events simply stops at the panic.
- `println!` logging: output with no effect on state.
- `notify_im_change` (mod.rs:357-368) sets `surrounding_change` and then calls `retrieve_surrounding`, whose body is `todo!()`; nothing calls it. `retrieve_surrounding`, `notify_surrounding_text`, `notify_content_type` and `notify_cursor_location` (mod.rs:370-390) have `todo!()` bodies. So there is no behaviour to model; in particular the code has no surrounding-text truncation or synchronisation.
- The commented-out traits and `commit_state` (mod.rs:273-355, 392-395): not live code.
- The fields `current_preedit`, `surrounding` and `surrounding_change` (mod.rs:244, 247, 249): nothing reads them, and the only write, of `surrounding_change` in `notify_im_change`, is in a function nothing calls.
- Transaction serials: done ignores its serial (mod.rs:141); `DoneIgnoresSerial` states it.
- Wayland proxy objects, `make_wid` and the window objects: foreign; they are opaque ids, requests are log entries, and a window is its IME-allowed flag and purpose.
- The order between a request and a pushed event in the same handler call (for example `Enabled` pushed before `text_input_entered` on enter, mod.rs:85-90) is not observable in the model, because requests and events go to two separate logs.
