/**
 * What crosses the boundary of the text-input handler: the
 * `zwp_text_input_v3` events it receives, the requests it issues on the
 * text-input object (and the window callbacks it makes), the `Ime` window
 * events it pushes to the application's event sink, and the registry of
 * windows it looks surfaces up in.
 */
module Protocol {
  import opened Base
  import opened ContentType

  /** Opaque identity of a `wl_surface`. */
  type SurfaceId = nat

  /** Identity of a window. */
  type WindowId = nat

  /** `wayland::make_wid`: a window is identified by its surface. */
  function MakeWid(surface: SurfaceId): (window: WindowId) {
    surface
  }

  /** What the handler asks of a window: whether IME is allowed, and its purpose. */
  datatype Window = Window(imeAllowed: bool, imePurpose: ImePurpose)

  /** The windows the application currently has, by id. */
  type Registry = map<WindowId, Window>

  /** `zwp_text_input_v3::Event`; strings are their UTF-8 bytes, a null string is `None`. */
  datatype TextInputEvent =
    | Enter(surface: SurfaceId)
    | Leave(surface: SurfaceId)
    | PreeditString(text: Option<seq<byte>>, cursorBegin: int32, cursorEnd: int32)
    | CommitString(text: Option<seq<byte>>)
    | DeleteSurroundingText(beforeLength: u32, afterLength: u32)
    | Done(serial: u32)
    | Unrecognised

  /**
   * Requests on the text-input object, in the order issued; the window
   * callbacks `text_input_entered` / `text_input_left` are recorded in the
   * same log.
   */
  datatype Request =
    | Enable
    | Disable
    | SetSurroundingText(text: seq<byte>, cursor: int32, anchor: int32)
    | SetContentType(hint: ContentHint, purpose: ContentPurpose)
    | Commit
    | TextInputEntered(window: WindowId)
    | TextInputLeft(window: WindowId)

  /** `winit::event::Ime`; byte offsets and lengths are `usize`. */
  datatype Ime =
    | Enabled
    | Preedit(text: seq<byte>, cursor: Option<(nat, nat)>)
    | Commit(content: seq<byte>, selection: Option<(nat, nat)>, composeRegion: Option<(nat, nat)>)
    | DeleteSurroundingText(beforeLength: nat, afterLength: nat)
    | RetrieveSurroundingText
    | Disabled

  /** One `events_sink.push_window_event(WindowEvent::Ime(event), window)`. */
  datatype WindowEventPush = Push(event: Ime, window: WindowId)
}
