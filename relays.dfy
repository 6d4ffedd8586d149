/**
 * Resolving a stream address into what the service subscribes with: the
 * decoded `naddr`, the merged relay list, the NIP-53 `a` tag, and the three
 * subscription filters.
 */
module Relays {
  import opened Wrappers
  import opened Types
  import opened Decimal
  import opened Text

  /** The ten relays every session also connects to, lowest priority. */
  const DefaultRelays: seq<string> := [
    "wss://relay.damus.io",
    "wss://relay.nostr.band",
    "wss://nos.lol",
    "wss://relay.snort.social",
    "wss://relay.primal.net",
    "wss://nostr.wine",
    "wss://relay.nostr.bg",
    "wss://nostr-pub.wellorder.net",
    "wss://offchain.pub",
    "wss://relay.current.fyi"
  ]

  /** The fallback list names ten distinct relays. */
  lemma DefaultRelaysAreDistinct()
    ensures |DefaultRelays| == 10 && NoDuplicates(DefaultRelays)
  {
  }

  /**
   * `decodeNaddr`: an `naddr` entity becomes its coordinates (a missing relay
   * list becomes the empty list); another entity type or a decoding error
   * becomes `None`.
   */
  function DecodeNaddr(decoded: Nip19Decoded): (r: Option<DecodedNaddr>)
    ensures r.Some? <==> decoded.NaddrEntity?
    ensures r.Some? ==> && r.value.kind == decoded.kind && r.value.pubkey == decoded.pubkey
                        && r.value.identifier == decoded.identifier
                        && r.value.relays == decoded.relays.GetOr([])
  {
    match decoded
    case NaddrEntity(kind, pubkey, identifier, relays) =>
      Some(DecodedNaddr(kind, pubkey, identifier, if relays.Some? then relays.value else []))
    case _ => None
  }

  predicate NoDuplicates<T(==)>(s: seq<T>) {
    forall i, j :: 0 <= i < j < |s| ==> s[i] != s[j]
  }

  /** The position of the first occurrence of `x` in `s`. */
  function FirstIndex<T(==)>(s: seq<T>, x: T): (k: nat)
    requires x in s
    ensures k < |s| && s[k] == x && x !in s[..k]
  {
    if s[0] == x then 0 else 1 + FirstIndex(s[1..], x)
  }

  /**
   * `[...new Set(s)]`: the elements of `s` in the order a `Set` keeps them,
   * each inserted when first seen and later repeats ignored.
   */
  function Dedup(s: seq<string>): (r: seq<string>)
    ensures NoDuplicates(r)
    ensures forall x :: x in r <==> x in s
  {
    if s == [] then []
    else
      var seen := Dedup(s[..|s| - 1]);
      var x := s[|s| - 1];
      assert s == s[..|s| - 1] + [x];
      if x in seen then seen else seen + [x]
  }

  /** Appending an element does not move the first occurrence of one already present. */
  lemma FirstIndexSnoc<T>(s: seq<T>, x: T, y: T)
    requires y in s
    ensures FirstIndex(s + [x], y) == FirstIndex(s, y)
  {
    var k := FirstIndex(s, y);
    var k' := FirstIndex(s + [x], y);
    assert forall i :: 0 <= i < k ==> s[i] != y by {
      forall i | 0 <= i < k ensures s[i] != y { assert s[i] == s[..k][i]; }
    }
    assert forall i :: 0 <= i < k' ==> (s + [x])[i] != y by {
      forall i | 0 <= i < k' ensures (s + [x])[i] != y { assert (s + [x])[i] == (s + [x])[..k'][i]; }
    }
    assert (s + [x])[k] == y;
    assert k' <= k;
    assert s[k'] == (s + [x])[k'];
  }

  /** `Dedup` lists the distinct elements in the order of their first occurrence. */
  lemma {:induction false} DedupKeepsFirstOccurrenceOrder(s: seq<string>)
    ensures forall i, j :: 0 <= i < j < |Dedup(s)| ==> FirstIndex(s, Dedup(s)[i]) < FirstIndex(s, Dedup(s)[j])
  {
    if s != [] {
      var p := s[..|s| - 1];
      var x := s[|s| - 1];
      assert s == p + [x];
      DedupKeepsFirstOccurrenceOrder(p);
      var seen := Dedup(p);
      forall y | y in seen ensures FirstIndex(s, y) == FirstIndex(p, y) {
        FirstIndexSnoc(p, x, y);
      }
      if x !in seen {
        assert FirstIndex(s, x) == |p|;
      }
    }
  }

  /**
   * The relays a session connects to: the address's hints, then the caller's
   * relays, then the defaults, without duplicates and in first-seen order.
   */
  function MergeRelays(hints: seq<string>, additional: seq<string>, defaults: seq<string>): (r: seq<string>)
    ensures NoDuplicates(r)
    ensures forall x :: x in r <==> x in hints || x in additional || x in defaults
    ensures forall i, j :: 0 <= i < j < |r| ==>
              FirstIndex(hints + additional + defaults, r[i]) < FirstIndex(hints + additional + defaults, r[j])
  {
    DedupKeepsFirstOccurrenceOrder(hints + additional + defaults);
    Dedup(hints + additional + defaults)
  }

  lemma MergeRelaysExample()
    ensures MergeRelays(["wss://a"], ["wss://b"], ["wss://c", "wss://a"]) == ["wss://a", "wss://b", "wss://c"]
  {
    var s := ["wss://a"] + ["wss://b"] + ["wss://c", "wss://a"];
    assert s == ["wss://a", "wss://b", "wss://c", "wss://a"];
    assert Dedup(s[..1]) == ["wss://a"] by {
      assert s[..1][..0] == [];
    }
    assert Dedup(s[..2]) == ["wss://a", "wss://b"] by {
      assert s[..2][..1] == s[..1];
    }
    assert Dedup(s[..3]) == ["wss://a", "wss://b", "wss://c"] by {
      assert s[..3][..2] == s[..2];
    }
    assert s[..|s| - 1] == s[..3];
  }

  /** The NIP-53 `a` tag `<kind>:<pubkey>:<identifier>` naming a live activity. */
  function ATag(d: DecodedNaddr): string {
    IntToString(d.kind) + ":" + d.pubkey + ":" + d.identifier
  }

  /** The tag adds exactly two colons of its own: the rendered kind holds none. */
  lemma ATagColons(d: DecodedNaddr)
    ensures Count(ATag(d), ':') == 2 + Count(d.pubkey, ':') + Count(d.identifier, ':')
  {
    assert ATag(d) == IntToString(d.kind) + ":" + d.pubkey + ":" + d.identifier;
  }

  /** Reads an `a` tag back: the kind before the first colon, the pubkey up to the next, the rest as identifier. */
  function ParseATag(tag: string): Option<(int, string, string)> {
    if ':' !in tag then None
    else
      var i := IndexOf(tag, ':');
      var rest := tag[i + 1..];
      if ':' !in rest then None
      else
        var j := IndexOf(rest, ':');
        match ParseInt(tag[..i])
        case None => None
        case Some(kind) => Some((kind, rest[..j], rest[j + 1..]))
  }

  /** A pubkey without colons (a hex key has none) makes the `a` tag readable back into its parts. */
  lemma ATagRoundTrip(d: DecodedNaddr)
    requires ':' !in d.pubkey
    ensures ParseATag(ATag(d)) == Some((d.kind, d.pubkey, d.identifier))
  {
    var k := IntToString(d.kind);
    var tag := ATag(d);
    assert tag[|k|] == ':';
    assert tag[..|k|] == k;
    assert IndexOf(tag, ':') == |k|;
    var rest := tag[|k| + 1..];
    assert rest == d.pubkey + ":" + d.identifier;
    assert rest[|d.pubkey|] == ':' && rest[..|d.pubkey|] == d.pubkey;
    assert IndexOf(rest, ':') == |d.pubkey|;
    IntToStringRoundTrip(d.kind);
  }

  /** Two live activities with colon-free pubkeys share an `a` tag only when they are the same activity. */
  lemma ATagInjective(d1: DecodedNaddr, d2: DecodedNaddr)
    requires ':' !in d1.pubkey && ':' !in d2.pubkey
    requires ATag(d1) == ATag(d2)
    ensures d1.kind == d2.kind && d1.pubkey == d2.pubkey && d1.identifier == d2.identifier
  {
    ATagRoundTrip(d1);
    ATagRoundTrip(d2);
  }

  /** The live-activity subscription: the decoded kind, author and `d` identifier. */
  function ActivityFilter(d: DecodedNaddr): Filter {
    Filter([d.kind], [d.pubkey], [d.identifier], [])
  }

  /** Kind-1311 chat messages that reference the activity through their `a` tag. */
  function ChatFilter(aTag: string): Filter {
    Filter([ChatKind], [], [], [aTag])
  }

  /** Kind-9735 zap receipts that reference the activity through their `a` tag. */
  function ZapFilter(aTag: string): Filter {
    Filter([ZapReceiptKind], [], [], [aTag])
  }

  /** The kind-0 metadata event of one author, as a profile fetch asks for it. */
  function ProfileFilter(pubkey: string): Filter {
    Filter([MetadataKind], [pubkey], [], [])
  }
}
