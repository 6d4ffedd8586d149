/**
 * `NostrService`: the single chat session. It owns the subscription
 * handles, the connected flag, the message and zap lists and the profile
 * cache, and changes them in place as the session is opened and closed and
 * as relay events and profile fetches arrive.
 */
module Service {
  import opened Wrappers
  import opened Types
  import opened Relays
  import opened Store
  import opened Feed
  import Bolt11

  /** A handle the relay pool returns for a subscription: what it was opened with, and whether it was closed. */
  class Subscription {
    const relays: seq<string>
    const filter: Filter
    var closed: bool

    /** `pool.subscribeMany(relays, filter, handlers)`: an open subscription. */
    constructor (relays: seq<string>, filter: Filter)
      ensures this.relays == relays && this.filter == filter && !closed
    {
      this.relays := relays;
      this.filter := filter;
      closed := false;
    }

    /** `close()`. */
    method Close()
      modifies this
      ensures closed
    {
      closed := true;
    }
  }

  /** `Array.prototype.some`: whether some element satisfies the test. */
  method SomeMatches<T>(s: seq<T>, test: T -> bool) returns (found: bool)
    ensures found <==> exists i :: 0 <= i < |s| && test(s[i])
  {
    found := false;
    var i := 0;
    while i < |s| && !found
      invariant 0 <= i <= |s|
      invariant found <==> exists k :: 0 <= k < i && test(s[k])
    {
      found := test(s[i]);
      i := i + 1;
    }
  }

  class NostrService {
    var subscriptions: seq<Subscription>
    var messages: seq<ChatMessage>
    var zaps: seq<ZapEvent>
    var profiles: map<string, Profile>
    var isConnected: bool
    /** The pubkeys whose profile the service has asked the relays for, in order. */
    ghost var requested: seq<string>

    /**
     * Stored ids are distinct, no profile is requested twice and each
     * requested one has a cache entry, and the session is connected exactly
     * when its three subscriptions are held.
     */
    ghost predicate Valid()
      reads this
    {
      && UniqueMessageIds(messages)
      && UniqueZapIds(zaps)
      && NoDuplicates(requested)
      && (forall p :: p in requested ==> p in profiles)
      && isConnected == (|subscriptions| == 3)
    }

    constructor ()
      ensures Valid()
      ensures subscriptions == [] && messages == [] && zaps == [] && profiles == map[]
      ensures !isConnected && requested == []
    {
      subscriptions := [];
      messages := [];
      zaps := [];
      profiles := map[];
      isConnected := false;
      requested := [];
    }

    /** `feed`, recomputed from the current lists and cache. */
    function Feed(): (feed: seq<FeedItem>)
      reads this
      ensures |feed| == |messages| + |zaps|
      ensures forall i :: 0 <= i < |messages| ==> EnrichMessage(messages[i], profiles) in feed
    {
      FeedHoldsEveryEvent(messages, zaps, profiles);
      FeedOf(messages, zaps, profiles)
    }

    /**
     * `disconnect`: closes every handle, then resets the session: no
     * handles, not connected, no messages or zaps. The profile cache stays.
     */
    method Disconnect()
      requires Valid()
      modifies this, subscriptions
      ensures Valid()
      ensures forall s :: s in old(subscriptions) ==> s.closed
      ensures subscriptions == [] && !isConnected && messages == [] && zaps == []
      ensures profiles == old(profiles) && requested == old(requested)
    {
      var i := 0;
      while i < |subscriptions|
        invariant 0 <= i <= |subscriptions|
        invariant subscriptions == old(subscriptions) && profiles == old(profiles) && requested == old(requested)
        invariant Valid()
        invariant forall k :: 0 <= k < i ==> subscriptions[k].closed
      {
        subscriptions[i].Close();
        i := i + 1;
      }
      subscriptions := [];
      isConnected := false;
      messages := [];
      zaps := [];
    }

    /**
     * `connect`: always disconnects first. An address that does not decode
     * as an `naddr` leaves the session closed. Otherwise the activity, chat
     * and zap subscriptions are opened on the merged relay list, in that
     * order, and the session is connected.
     */
    method Connect(address: Nip19Decoded, additionalRelays: seq<string>)
      requires Valid()
      modifies this, subscriptions
      ensures Valid()
      ensures forall s :: s in old(subscriptions) ==> s.closed
      ensures messages == [] && zaps == [] && profiles == old(profiles) && requested == old(requested)
      ensures DecodeNaddr(address).None? ==> subscriptions == [] && !isConnected
      ensures DecodeNaddr(address).Some? ==>
                var d := DecodeNaddr(address).value;
                && isConnected && |subscriptions| == 3
                && (forall s :: s in subscriptions ==>
                      fresh(s) && !s.closed && s.relays == MergeRelays(d.relays, additionalRelays, DefaultRelays))
                && subscriptions[0].filter == ActivityFilter(d)
                && subscriptions[1].filter == ChatFilter(ATag(d))
                && subscriptions[2].filter == ZapFilter(ATag(d))
    {
      Disconnect();
      var decoded := DecodeNaddr(address);
      if decoded.None? {
        return;
      }
      var d := decoded.value;
      var relays := MergeRelays(d.relays, additionalRelays, DefaultRelays);
      var aTag := ATag(d);
      var activitySub := new Subscription(relays, ActivityFilter(d));
      subscriptions := subscriptions + [activitySub];
      var chatSub := new Subscription(relays, ChatFilter(aTag));
      subscriptions := subscriptions + [chatSub];
      var zapSub := new Subscription(relays, ZapFilter(aTag));
      subscriptions := subscriptions + [zapSub];
      isConnected := true;
    }

    /**
     * The synchronous part of `fetchProfileIfNeeded`: a pubkey with a cache
     * entry changes nothing; otherwise a placeholder is stored before the
     * fetch is issued. Returns the filter of the request it sends, if any:
     * the author's kind-0 metadata event.
     */
    method FetchProfileIfNeeded(pubkey: string) returns (request: Option<Filter>)
      requires Valid()
      modifies this
      ensures Valid()
      ensures request.Some? <==> pubkey !in old(profiles)
      ensures request.Some? ==> request.value == ProfileFilter(pubkey)
      ensures profiles == BeginFetch(old(profiles), pubkey)
      ensures requested == old(requested) + (if request.Some? then [pubkey] else [])
      ensures messages == old(messages) && zaps == old(zaps)
      ensures subscriptions == old(subscriptions) && isConnected == old(isConnected)
    {
      if pubkey in profiles {
        return None;
      }
      profiles := profiles[pubkey := Placeholder(pubkey)];
      requested := requested + [pubkey];
      request := Some(ProfileFilter(pubkey));
    }

    /**
     * The asynchronous end of `fetchProfileIfNeeded`, for a fetch that was
     * issued: a found document replaces the entry; an error or no event
     * leaves the placeholder.
     */
    method CompleteProfileFetch(pubkey: string, outcome: FetchOutcome)
      requires Valid()
      requires pubkey in requested
      modifies this
      ensures Valid()
      ensures profiles == CompleteFetch(old(profiles), pubkey, outcome)
      ensures requested == old(requested) && messages == old(messages) && zaps == old(zaps)
      ensures subscriptions == old(subscriptions) && isConnected == old(isConnected)
    {
      if outcome.Found? {
        profiles := profiles[pubkey := ProfileFrom(pubkey, outcome.metadata)];
      }
    }

    /** `handleChatMessage`: appends the event's message unless its id is already stored. */
    method HandleChatMessage(e: RawEvent)
      requires Valid()
      modifies this
      ensures Valid()
      ensures messages == AddMessage(old(messages), e)
      ensures zaps == old(zaps) && profiles == old(profiles) && requested == old(requested)
      ensures subscriptions == old(subscriptions) && isConnected == old(isConnected)
    {
      var known := SomeMatches(messages, (m: ChatMessage) => m.id == e.id);
      if known {
        return;
      }
      messages := messages + [MessageFrom(e)];
    }

    /** What the chat subscription does with an event: store it, then ask for its author's profile. */
    method OnChatEvent(e: RawEvent)
      requires Valid()
      modifies this
      ensures Valid()
      ensures messages == AddMessage(old(messages), e)
      ensures profiles == BeginFetch(old(profiles), e.pubkey)
      ensures requested == old(requested) + (if e.pubkey in old(profiles) then [] else [e.pubkey])
      ensures zaps == old(zaps) && subscriptions == old(subscriptions) && isConnected == old(isConnected)
    {
      HandleChatMessage(e);
      var _ := FetchProfileIfNeeded(e.pubkey);
    }

    /**
     * `handleZapEvent`: a receipt with a new id, a non-empty description
     * that parses, is appended and its sender's profile requested; any
     * other receipt changes nothing, and requests no profile.
     */
    method HandleZapEvent(e: RawEvent, parseRequest: string -> Option<ZapRequest>)
      requires Valid()
      modifies this
      ensures Valid()
      ensures zaps == AddZap(old(zaps), e, parseRequest)
      ensures |zaps| == |old(zaps)| ==> profiles == old(profiles) && requested == old(requested)
      ensures |zaps| == |old(zaps)| + 1 ==>
                var sender := zaps[|old(zaps)|].senderPubkey;
                && profiles == BeginFetch(old(profiles), sender)
                && requested == old(requested) + (if sender in old(profiles) then [] else [sender])
      ensures messages == old(messages) && subscriptions == old(subscriptions) && isConnected == old(isConnected)
    {
      var known := SomeMatches(zaps, (z: ZapEvent) => z.id == e.id);
      if known {
        return;
      }
      var description := FirstValue(e, "description");
      if description.None? || description.value == "" {
        return;
      }
      var request := parseRequest(description.value);
      if request.None? {
        return;
      }
      var amount := Bolt11.ParseAmountFromBolt11(OrEmpty(FirstValue(e, "bolt11")));
      var recipient := OrEmpty(FirstValue(e, "p"));
      var zap := ZapEvent(e.id, request.value.pubkey, recipient, amount, OrEmpty(request.value.content), e.createdAt);
      zaps := zaps + [zap];
      var _ := FetchProfileIfNeeded(request.value.pubkey);
    }
  }
}
