/**
 * The records the chat service works with: raw relay events, the stored
 * chat messages and zap receipts, profiles, and what the NIP-19 decoder
 * yields for an `naddr`.
 */
module Types {
  import opened Wrappers

  /** A tag is a small list of strings whose first element names it. */
  type Tag = seq<string>

  /** A Nostr event as the relay pool delivers it. */
  datatype RawEvent = RawEvent(id: string, pubkey: string, content: string, createdAt: int, tags: seq<Tag>)

  /** A stored kind-1311 live-chat message. */
  datatype ChatMessage = ChatMessage(id: string, pubkey: string, content: string, createdAt: int)

  /** A stored kind-9735 zap receipt; `amount` is in satoshis. */
  datatype ZapEvent = ZapEvent(id: string, senderPubkey: string, recipientPubkey: string,
                               amount: nat, content: string, createdAt: int)

  /** The fields the service reads from the zap request embedded in a receipt's `description` tag. */
  datatype ZapRequest = ZapRequest(pubkey: string, content: Option<string>)

  /** A cached profile; one with only `pubkey` set is the placeholder of a fetch in flight or failed. */
  datatype Profile = Profile(pubkey: string, name: Option<string>, displayName: Option<string>,
                             picture: Option<string>, nip05: Option<string>)

  /** The fields the service reads from the JSON content of a kind-0 metadata event. */
  datatype Metadata = Metadata(name: Option<string>, display_name: Option<string>, displayName: Option<string>,
                               picture: Option<string>, nip05: Option<string>)

  /** How a profile fetch ends: an error (transport or JSON), no event found, or the parsed metadata. */
  datatype FetchOutcome = Failed | NotFound | Found(metadata: Metadata)

  /** The coordinates of a parameterised replaceable event (here: a NIP-53 live activity). */
  datatype DecodedNaddr = DecodedNaddr(kind: int, pubkey: string, identifier: string, relays: seq<string>)

  /**
   * What NIP-19 decoding of the address string produced: an `naddr` (whose
   * relay list may be missing), an entity of another type, or an exception.
   */
  datatype Nip19Decoded =
    | NaddrEntity(kind: int, pubkey: string, identifier: string, relays: Option<seq<string>>)
    | OtherEntity
    | DecodeError

  /** A relay subscription filter; an empty list means the field is absent. */
  datatype Filter = Filter(kinds: seq<int>, authors: seq<string>, dTags: seq<string>, aTags: seq<string>)

  const MetadataKind: int := 0
  const ChatKind: int := 1311
  const ZapReceiptKind: int := 9735

  /** JavaScript's `a || b` on optional strings: the empty string counts as absent. */
  function OrElse(a: Option<string>, b: Option<string>): Option<string> {
    if a.Some? && a.value != "" then a else b
  }

  /** `v || ''`. */
  function OrEmpty(v: Option<string>): string {
    if v.Some? then v.value else ""
  }
}
