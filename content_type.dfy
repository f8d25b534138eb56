/**
 * The window's input purpose and the content type it is announced as to the
 * compositor (`zwp_text_input_v3.set_content_type`).
 */
module ContentType {
  import opened Base

  /** The application-level purpose of a text field, as the window declares it. */
  datatype ImePurpose = Normal | Password | Terminal

  /** `zwp_text_input_v3.content_hint`: a set of flag bits; only the two values sent here are named. */
  newtype ContentHint = x: int | 0 <= x < 0x1_0000_0000

  const HINT_NONE: ContentHint := 0x0
  const HINT_SENSITIVE_DATA: ContentHint := 0x80

  /** `zwp_text_input_v3.content_purpose`. */
  datatype ContentPurpose =
    | Normal | Alpha | Digits | Number | Phone | Url | Email | Name
    | Password | Pin | Date | Time | Datetime | Terminal

  /**
   * `set_content_type_by_purpose`: the hint and purpose sent for a window's
   * purpose. Only a password field is flagged as sensitive data.
   */
  function ContentTypeFor(purpose: ImePurpose): (r: (ContentHint, ContentPurpose))
    ensures r.0 == HINT_SENSITIVE_DATA <==> purpose == ImePurpose.Password
    ensures r.0 != HINT_SENSITIVE_DATA ==> r.0 == HINT_NONE
  {
    match purpose
    case Normal => (HINT_NONE, ContentPurpose.Normal)
    case Password => (HINT_SENSITIVE_DATA, ContentPurpose.Password)
    case Terminal => (HINT_NONE, ContentPurpose.Terminal)
  }

  /** The window purpose a protocol purpose stands for, when there is one. */
  function ImePurposeOf(p: ContentPurpose): (purpose: Option<ImePurpose>) {
    match p
    case Normal => Some(ImePurpose.Normal)
    case Password => Some(ImePurpose.Password)
    case Terminal => Some(ImePurpose.Terminal)
    case _ => None
  }

  /** The mapping loses nothing: the announced purpose determines the window's purpose. */
  lemma ContentTypeRoundTrip(purpose: ImePurpose)
    ensures ImePurposeOf(ContentTypeFor(purpose).1) == Some(purpose)
  {
  }

  /** Different window purposes are announced differently. */
  lemma ContentTypeInjective(p: ImePurpose, q: ImePurpose)
    ensures ContentTypeFor(p) == ContentTypeFor(q) ==> p == q
  {
  }
}
