/**
 * The session's append-only event store and profile cache, as values: how
 * one chat event, one zap receipt, or one step of a profile fetch changes
 * them, and what any sequence of such steps guarantees.
 */
module Store {
  import opened Wrappers
  import opened Types
  import opened Relays
  import Bolt11

  // ---------------------------------------------------------------- messages

  predicate HasMessage(msgs: seq<ChatMessage>, id: string) {
    exists i :: 0 <= i < |msgs| && msgs[i].id == id
  }

  predicate UniqueMessageIds(msgs: seq<ChatMessage>) {
    forall i, j :: 0 <= i < j < |msgs| ==> msgs[i].id != msgs[j].id
  }

  /** The message stored for a kind-1311 event: its id, author, content and time. */
  function MessageFrom(e: RawEvent): ChatMessage {
    ChatMessage(e.id, e.pubkey, e.content, e.createdAt)
  }

  /**
   * `handleChatMessage` on the list: a new id appends exactly one message
   * built from the event at the end; a known id leaves the list as it is.
   */
  function AddMessage(msgs: seq<ChatMessage>, e: RawEvent): (r: seq<ChatMessage>)
    ensures msgs <= r && HasMessage(r, e.id)
    ensures |r| == |msgs| + 1 <==> !HasMessage(msgs, e.id)
    ensures |r| != |msgs| + 1 ==> r == msgs
    ensures |r| == |msgs| + 1 ==> r[|msgs|] == MessageFrom(e)
    ensures UniqueMessageIds(msgs) ==> UniqueMessageIds(r)
  {
    if HasMessage(msgs, e.id) then msgs
    else
      var r := msgs + [MessageFrom(e)];
      assert r[|msgs|].id == e.id;
      r
  }

  /** Some event of the sequence carries this id. */
  predicate Carries(events: seq<RawEvent>, id: string) {
    exists k :: 0 <= k < |events| && events[k].id == id
  }

  /** The list after a sequence of chat events, delivered in order. */
  function DeliverMessages(msgs: seq<ChatMessage>, events: seq<RawEvent>): seq<ChatMessage> {
    if events == [] then msgs
    else AddMessage(DeliverMessages(msgs, events[..|events| - 1]), events[|events| - 1])
  }

  /**
   * Whatever the order and however often events are repeated, the stored
   * messages keep distinct ids, and an id is stored exactly when it was
   * stored before or some delivered event carries it.
   */
  lemma {:induction false} DeliverMessagesKeepsIdsUnique(msgs: seq<ChatMessage>, events: seq<RawEvent>)
    requires UniqueMessageIds(msgs)
    ensures var r := DeliverMessages(msgs, events);
            && msgs <= r && UniqueMessageIds(r)
            && forall id :: HasMessage(r, id) <==> HasMessage(msgs, id) || Carries(events, id)
  {
    if events != [] {
      var prefix := events[..|events| - 1];
      var e := events[|events| - 1];
      DeliverMessagesKeepsIdsUnique(msgs, prefix);
      var before := DeliverMessages(msgs, prefix);
      var r := AddMessage(before, e);
      forall id | HasMessage(r, id) ensures HasMessage(before, id) || id == e.id {
        var i :| 0 <= i < |r| && r[i].id == id;
        if i < |before| {
          assert before[i] == r[i];
        }
      }
      forall id | HasMessage(before, id) ensures HasMessage(r, id) {
        var i :| 0 <= i < |before| && before[i].id == id;
        assert r[i] == before[i];
      }
      forall id ensures Carries(events, id) <==> Carries(prefix, id) || id == e.id {
        if Carries(events, id) {
          var k :| 0 <= k < |events| && events[k].id == id;
          if k < |prefix| {
            assert prefix[k] == events[k];
          }
        }
        if Carries(prefix, id) {
          var k :| 0 <= k < |prefix| && prefix[k].id == id;
          assert events[k] == prefix[k];
        }
        assert events[|events| - 1] == e;
      }
    }
  }

  // -------------------------------------------------------------------- zaps

  predicate HasZap(zaps: seq<ZapEvent>, id: string) {
    exists i :: 0 <= i < |zaps| && zaps[i].id == id
  }

  predicate UniqueZapIds(zaps: seq<ZapEvent>) {
    forall i, j :: 0 <= i < j < |zaps| ==> zaps[i].id != zaps[j].id
  }

  /** `t[0] === name`: a tag with no elements has no name. */
  predicate IsNamed(t: Tag, name: string) {
    |t| >= 1 && t[0] == name
  }

  /** `tags.find(t => t[0] === name)`: the first tag with that name. */
  function FindTag(tags: seq<Tag>, name: string): (r: Option<Tag>)
    ensures r.None? ==> forall k :: 0 <= k < |tags| ==> !IsNamed(tags[k], name)
    ensures r.Some? ==> exists k :: 0 <= k < |tags| && tags[k] == r.value && IsNamed(tags[k], name)
                                    && forall k' :: 0 <= k' < k ==> !IsNamed(tags[k'], name)
  {
    if tags == [] then None
    else if IsNamed(tags[0], name) then Some(tags[0])
    else
      var r := FindTag(tags[1..], name);
      assert forall k :: 1 <= k < |tags| ==> tags[k] == tags[1..][k - 1];
      r
  }

  /** `tag?.[1]`: the tag's first value, absent when there is no tag or it has no value. */
  function TagValue(tag: Option<Tag>): (v: Option<string>)
    ensures v.Some? <==> tag.Some? && |tag.value| >= 2
    ensures v.Some? ==> v.value == tag.value[1]
  {
    if tag.Some? && |tag.value| >= 2 then Some(tag.value[1]) else None
  }

  /** The first value of the first tag with this name, if any. */
  function FirstValue(e: RawEvent, name: string): Option<string> {
    TagValue(FindTag(e.tags, name))
  }

  /**
   * The value read is the second element of the first tag with that name;
   * it is absent when no tag has the name or the first one has no value.
   */
  lemma FirstValueOfFirstTag(e: RawEvent, name: string, k: nat)
    requires k < |e.tags| && IsNamed(e.tags[k], name)
    requires forall j :: 0 <= j < k ==> !IsNamed(e.tags[j], name)
    ensures FirstValue(e, name) == if |e.tags[k]| >= 2 then Some(e.tags[k][1]) else None
  {
    var r := FindTag(e.tags, name);
    var k' :| 0 <= k' < |e.tags| && e.tags[k'] == r.value && IsNamed(e.tags[k'], name)
                && forall j :: 0 <= j < k' ==> !IsNamed(e.tags[j], name);
    assert k' == k;
  }

  /**
   * The zap a kind-9735 receipt decodes to. It needs a non-empty
   * `description` that parses as a zap request; the amount comes from the
   * `bolt11` tag (the empty string when absent), the recipient from the `p`
   * tag (empty when absent), sender and note from the request.
   */
  function DecodeZap(e: RawEvent, parseRequest: string -> Option<ZapRequest>): (r: Option<ZapEvent>)
    ensures r.Some? <==> FirstValue(e, "description").Some? && FirstValue(e, "description").value != ""
                         && parseRequest(FirstValue(e, "description").value).Some?
    ensures r.Some? ==>
              var request := parseRequest(FirstValue(e, "description").value).value;
              && r.value.id == e.id && r.value.createdAt == e.createdAt
              && r.value.senderPubkey == request.pubkey
              && r.value.content == OrEmpty(request.content)
              && r.value.recipientPubkey == OrEmpty(FirstValue(e, "p"))
              && r.value.amount == Bolt11.ParseAmountFromBolt11(OrEmpty(FirstValue(e, "bolt11")))
  {
    var description := FirstValue(e, "description");
    if description.None? || description.value == "" then None
    else
      match parseRequest(description.value)
      case None => None
      case Some(request) =>
        Some(ZapEvent(e.id, request.pubkey, OrEmpty(FirstValue(e, "p")),
                      Bolt11.ParseAmountFromBolt11(OrEmpty(FirstValue(e, "bolt11"))),
                      OrEmpty(request.content), e.createdAt))
  }

  /**
   * `handleZapEvent` on the list: a receipt with a new id that decodes is
   * appended; anything else leaves the list as it is.
   */
  function AddZap(zaps: seq<ZapEvent>, e: RawEvent, parseRequest: string -> Option<ZapRequest>): (r: seq<ZapEvent>)
    ensures zaps <= r && |r| <= |zaps| + 1
    ensures |r| == |zaps| + 1 <==> !HasZap(zaps, e.id) && DecodeZap(e, parseRequest).Some?
    ensures |r| != |zaps| + 1 ==> r == zaps
    ensures |r| == |zaps| + 1 ==> r[|zaps|] == DecodeZap(e, parseRequest).value
    ensures DecodeZap(e, parseRequest).Some? ==> HasZap(r, e.id)
    ensures UniqueZapIds(zaps) ==> UniqueZapIds(r)
  {
    if HasZap(zaps, e.id) then zaps
    else
      match DecodeZap(e, parseRequest)
      case None => zaps
      case Some(zap) =>
        var r := zaps + [zap];
        assert r[|zaps|].id == e.id;
        r
  }

  /**
   * A receipt is dropped, the list unchanged, when its id is already stored,
   * when it has no `description` tag or an empty one, or when the
   * description does not parse.
   */
  lemma ZapDropConditions(zaps: seq<ZapEvent>, e: RawEvent, parseRequest: string -> Option<ZapRequest>)
    requires || HasZap(zaps, e.id)
             || FindTag(e.tags, "description").None?
             || FirstValue(e, "description") == Some("")
             || (FirstValue(e, "description").Some? && parseRequest(FirstValue(e, "description").value).None?)
    ensures AddZap(zaps, e, parseRequest) == zaps
  {
  }

  /** A receipt without a `bolt11` tag is stored with amount 0, one without a `p` tag with no recipient. */
  lemma ZapDefaults(e: RawEvent, parseRequest: string -> Option<ZapRequest>)
    requires DecodeZap(e, parseRequest).Some?
    ensures FindTag(e.tags, "bolt11").None? ==> DecodeZap(e, parseRequest).value.amount == 0
    ensures FindTag(e.tags, "p").None? ==> DecodeZap(e, parseRequest).value.recipientPubkey == ""
  {
    assert forall i :: !Bolt11.MatchesAt("", i);
  }

  /** Some receipt of the sequence that passes `ok` carries this id. */
  predicate CarriesWhere(events: seq<RawEvent>, id: string, ok: RawEvent -> bool) {
    exists k :: 0 <= k < |events| && events[k].id == id && ok(events[k])
  }

  /** Some receipt of the sequence that decodes carries this id. */
  predicate CarriesDecodable(events: seq<RawEvent>, id: string, parseRequest: string -> Option<ZapRequest>) {
    CarriesWhere(events, id, e => DecodeZap(e, parseRequest).Some?)
  }

  /** The list after a sequence of zap receipts, delivered in order. */
  function DeliverZaps(zaps: seq<ZapEvent>, events: seq<RawEvent>, parseRequest: string -> Option<ZapRequest>): seq<ZapEvent> {
    if events == [] then zaps
    else AddZap(DeliverZaps(zaps, events[..|events| - 1], parseRequest), events[|events| - 1], parseRequest)
  }

  /** Appending one receipt adds to the carriers exactly that receipt, if it passes `ok`. */
  lemma CarriesWhereSnoc(events: seq<RawEvent>, id: string, ok: RawEvent -> bool)
    requires events != []
    ensures CarriesWhere(events, id, ok) <==>
            || CarriesWhere(events[..|events| - 1], id, ok)
            || (events[|events| - 1].id == id && ok(events[|events| - 1]))
  {
    var prefix := events[..|events| - 1];
    if CarriesWhere(events, id, ok) {
      var k :| 0 <= k < |events| && events[k].id == id && ok(events[k]);
      if k < |prefix| {
        assert prefix[k] == events[k];
      }
    }
    if CarriesWhere(prefix, id, ok) {
      var k :| 0 <= k < |prefix| && prefix[k].id == id && ok(prefix[k]);
      assert events[k] == prefix[k];
    }
  }

  /**
   * Whatever the order and repetition of receipts, zap ids stay distinct,
   * and an id is stored exactly when it was stored before or some delivered
   * receipt that decodes carries it.
   */
  lemma {:induction false} DeliverZapsKeepsIdsUnique(zaps: seq<ZapEvent>, events: seq<RawEvent>,
                                                   parseRequest: string -> Option<ZapRequest>)
    requires UniqueZapIds(zaps)
    ensures var r := DeliverZaps(zaps, events, parseRequest);
            && zaps <= r && UniqueZapIds(r)
            && forall id :: HasZap(r, id) <==> HasZap(zaps, id) || CarriesDecodable(events, id, parseRequest)
  {
    if events != [] {
      var prefix := events[..|events| - 1];
      var e := events[|events| - 1];
      DeliverZapsKeepsIdsUnique(zaps, prefix, parseRequest);
      var before := DeliverZaps(zaps, prefix, parseRequest);
      var r := AddZap(before, e, parseRequest);
      assert r == DeliverZaps(zaps, events, parseRequest);
      forall id ensures HasZap(r, id) <==> HasZap(before, id) || (e.id == id && DecodeZap(e, parseRequest).Some?) {
        if HasZap(before, id) {
          var i :| 0 <= i < |before| && before[i].id == id;
          assert r[i] == before[i];
        }
      }
      forall id ensures CarriesDecodable(events, id, parseRequest) <==>
                        CarriesDecodable(prefix, id, parseRequest) || (e.id == id && DecodeZap(e, parseRequest).Some?) {
        CarriesWhereSnoc(events, id, e => DecodeZap(e, parseRequest).Some?);
      }
    }
  }

  // ---------------------------------------------------------------- profiles

  /** The entry that marks a fetch as issued: only the pubkey is known. */
  function Placeholder(pubkey: string): Profile {
    Profile(pubkey, None, None, None, None)
  }

  /** The profile a fetched kind-0 document gives; the display name is `display_name || displayName`. */
  function ProfileFrom(pubkey: string, m: Metadata): Profile {
    Profile(pubkey, m.name, OrElse(m.display_name, m.displayName), m.picture, m.nip05)
  }

  /**
   * The synchronous half of `fetchProfileIfNeeded`: a known pubkey changes
   * nothing; an unknown one gets a placeholder, every other entry unchanged.
   */
  function BeginFetch(profiles: map<string, Profile>, pubkey: string): (r: map<string, Profile>)
    ensures r.Keys == profiles.Keys + {pubkey}
    ensures forall k :: k in profiles ==> r[k] == profiles[k]
    ensures pubkey !in profiles ==> r[pubkey] == Placeholder(pubkey)
  {
    if pubkey in profiles then profiles else profiles[pubkey := Placeholder(pubkey)]
  }

  /**
   * The completion of a fetch: a found document overwrites the entry; an
   * error or a missing event leaves the map, and so the placeholder, alone.
   */
  function CompleteFetch(profiles: map<string, Profile>, pubkey: string, outcome: FetchOutcome): (r: map<string, Profile>)
    ensures !outcome.Found? ==> r == profiles
    ensures outcome.Found? ==> && r.Keys == profiles.Keys + {pubkey}
                               && r[pubkey] == ProfileFrom(pubkey, outcome.metadata)
                               && forall k :: k in profiles && k != pubkey ==> r[k] == profiles[k]
  {
    match outcome
    case Found(m) => profiles[pubkey := ProfileFrom(pubkey, m)]
    case _ => profiles
  }

  /** One event the profile cache sees: a fetch requested, or a fetch ending. */
  datatype ProfileStep = Begin(pubkey: string) | Complete(pubkey: string, outcome: FetchOutcome)

  /** The cache after a run of steps, with the pubkeys whose fetch was actually issued, in order. */
  function RunProfileSteps(profiles: map<string, Profile>, steps: seq<ProfileStep>): (map<string, Profile>, seq<string>) {
    if steps == [] then (profiles, [])
    else
      var (cache, issued) := RunProfileSteps(profiles, steps[..|steps| - 1]);
      match steps[|steps| - 1]
      case Begin(p) => (BeginFetch(cache, p), if p in cache then issued else issued + [p])
      case Complete(p, outcome) => (CompleteFetch(cache, p, outcome), issued)
  }

  /**
   * Single flight: however requests and completions interleave, no pubkey
   * is fetched twice, only pubkeys absent from the cache at the start are
   * fetched, each only after it was requested, no entry is ever removed,
   * and every requested pubkey ends up with an entry.
   */
  lemma {:induction false} SingleFlight(profiles: map<string, Profile>, steps: seq<ProfileStep>)
    ensures var (cache, issued) := RunProfileSteps(profiles, steps);
            && NoDuplicates(issued)
            && profiles.Keys <= cache.Keys
            && (forall p :: p in issued ==> p !in profiles && p in cache && Begin(p) in steps)
            && (forall k :: 0 <= k < |steps| && steps[k].Begin? ==> steps[k].pubkey in cache)
  {
    if steps != [] {
      var prefix := steps[..|steps| - 1];
      var last := steps[|steps| - 1];
      SingleFlight(profiles, prefix);
      var (cache, issued) := RunProfileSteps(profiles, prefix);
      var (cache', issued') := RunProfileSteps(profiles, steps);
      assert cache.Keys <= cache'.Keys;
      forall p | p in issued' ensures Begin(p) in steps {
        if p in issued {
          var k :| 0 <= k < |prefix| && prefix[k] == Begin(p);
          assert steps[k] == prefix[k];
        }
      }
      forall k | 0 <= k < |steps| && steps[k].Begin? ensures steps[k].pubkey in cache' {
        if k < |prefix| {
          assert steps[k] == prefix[k];
        }
      }
    }
  }
}
