/**
 * The chat feed the view renders: every message, then every zap, each
 * enriched with the sender's display name and avatar from the profile
 * cache, stably sorted by creation time.
 */
module Feed {
  import opened Wrappers
  import opened Types
  import opened Store

  datatype FeedItem =
    | MessageItem(message: ChatMessage, displayName: string, avatar: Option<string>)
    | ZapItem(zap: ZapEvent, senderDisplayName: string, senderAvatar: Option<string>)
  {
    function CreatedAt(): int {
      if MessageItem? then message.createdAt else zap.createdAt
    }
  }

  // ------------------------------------------------------------- display

  /**
   * `shortenPubkey`: a key of at most 12 characters is shown whole, a longer
   * one as its first six characters, an ellipsis and its last six.
   */
  function ShortenPubkey(pubkey: string): (r: string)
    ensures |pubkey| <= 12 ==> r == pubkey
    ensures |pubkey| > 12 ==> && |r| == 15 && r[..6] == pubkey[..6] && r[6..9] == "..."
                              && r[9..] == pubkey[|pubkey| - 6..]
  {
    if |pubkey| <= 12 then pubkey else pubkey[..6] + "..." + pubkey[|pubkey| - 6..]
  }

  /** Shortening an already shortened key changes nothing. */
  lemma ShortenPubkeyIdempotent(pubkey: string)
    ensures ShortenPubkey(ShortenPubkey(pubkey)) == ShortenPubkey(pubkey)
  {
    var r := ShortenPubkey(pubkey);
    if |pubkey| > 12 {
      var r2 := ShortenPubkey(r);
      assert r2 == r[..6] + r[6..9] + r[9..];
      assert r[..6] + r[6..9] + r[9..] == r;
    }
  }

  /** The cached profile of a pubkey, if it has an entry (placeholders included). */
  function Lookup(profiles: map<string, Profile>, pubkey: string): Option<Profile> {
    if pubkey in profiles then Some(profiles[pubkey]) else None
  }

  /** `profile?.displayName || profile?.name || shortenPubkey(pubkey)`. */
  function DisplayName(profile: Option<Profile>, pubkey: string): (r: string)
    ensures r == ShortenPubkey(pubkey)
            || (profile.Some? && r != "" && (profile.value.displayName == Some(r) || profile.value.name == Some(r)))
    ensures profile.None? ==> r == ShortenPubkey(pubkey)
  {
    if profile.Some? && profile.value.displayName.Some? && profile.value.displayName.value != "" then
      profile.value.displayName.value
    else if profile.Some? && profile.value.name.Some? && profile.value.name.value != "" then
      profile.value.name.value
    else ShortenPubkey(pubkey)
  }

  /** `profile?.picture`. */
  function Avatar(profile: Option<Profile>): Option<string> {
    if profile.Some? then profile.value.picture else None
  }

  function EnrichMessage(m: ChatMessage, profiles: map<string, Profile>): FeedItem {
    MessageItem(m, DisplayName(Lookup(profiles, m.pubkey), m.pubkey), Avatar(Lookup(profiles, m.pubkey)))
  }

  function EnrichZap(z: ZapEvent, profiles: map<string, Profile>): FeedItem {
    ZapItem(z, DisplayName(Lookup(profiles, z.senderPubkey), z.senderPubkey), Avatar(Lookup(profiles, z.senderPubkey)))
  }

  /** The first loop: one item per message, in stored order. */
  function MessageItems(msgs: seq<ChatMessage>, profiles: map<string, Profile>): (items: seq<FeedItem>)
    ensures |items| == |msgs|
    ensures forall i :: 0 <= i < |msgs| ==> items[i] == EnrichMessage(msgs[i], profiles)
  {
    seq(|msgs|, i requires 0 <= i < |msgs| => EnrichMessage(msgs[i], profiles))
  }

  /** The second loop: one item per zap, in stored order. */
  function ZapItems(zaps: seq<ZapEvent>, profiles: map<string, Profile>): (items: seq<FeedItem>)
    ensures |items| == |zaps|
    ensures forall i :: 0 <= i < |zaps| ==> items[i] == EnrichZap(zaps[i], profiles)
  {
    seq(|zaps|, i requires 0 <= i < |zaps| => EnrichZap(zaps[i], profiles))
  }

  // ---------------------------------------------------------------- sorting

  predicate SortedByTime(items: seq<FeedItem>) {
    forall i, j :: 0 <= i < j < |items| ==> items[i].CreatedAt() <= items[j].CreatedAt()
  }

  /** The items created at time `t`, in the order they appear. */
  function AtTime(items: seq<FeedItem>, t: int): seq<FeedItem> {
    if items == [] then []
    else AtTime(items[..|items| - 1], t) + (if items[|items| - 1].CreatedAt() == t then [items[|items| - 1]] else [])
  }

  /** Appending one item extends the items of its time by that item. */
  lemma AtTimeSnoc(items: seq<FeedItem>, x: FeedItem, t: int)
    ensures AtTime(items + [x], t) == AtTime(items, t) + (if x.CreatedAt() == t then [x] else [])
  {
    assert (items + [x])[..|items|] == items;
  }

  /** Places `x` after every item that is not later than it. */
  function InsertByTime(items: seq<FeedItem>, x: FeedItem): (r: seq<FeedItem>)
    ensures multiset(r) == multiset(items) + multiset{x}
  {
    if items == [] || items[|items| - 1].CreatedAt() <= x.CreatedAt() then items + [x]
    else
      var init := items[..|items| - 1];
      assert items == init + [items[|items| - 1]];
      InsertByTime(init, x) + [items[|items| - 1]]
  }

  /** `sort((a, b) => a.createdAt - b.createdAt)`, a stable sort: insertion from the left. */
  function SortByTime(items: seq<FeedItem>): (r: seq<FeedItem>)
    ensures multiset(r) == multiset(items)
  {
    if items == [] then []
    else
      assert items == items[..|items| - 1] + [items[|items| - 1]];
      InsertByTime(SortByTime(items[..|items| - 1]), items[|items| - 1])
  }

  /** A permutation of `a + b` has their joint length and holds every member of each. */
  lemma PermutationKeepsMembers(a: seq<FeedItem>, b: seq<FeedItem>, p: seq<FeedItem>)
    requires multiset(p) == multiset(a) + multiset(b)
    ensures |p| == |a| + |b|
    ensures forall x :: x in a ==> x in p
    ensures forall x :: x in b ==> x in p
  {
    assert |p| == |multiset(p)| && |a| == |multiset(a)| && |b| == |multiset(b)|;
    forall x | x in a ensures x in p {
      assert x in multiset(a) && x in multiset(p);
    }
    forall x | x in b ensures x in p {
      assert x in multiset(b) && x in multiset(p);
    }
  }

  /** `feed`: the stored messages and zaps, enriched, in one list sorted by creation time. */
  function FeedOf(msgs: seq<ChatMessage>, zaps: seq<ZapEvent>, profiles: map<string, Profile>): seq<FeedItem> {
    SortByTime(MessageItems(msgs, profiles) + ZapItems(zaps, profiles))
  }

  /** The feed has one item per stored message and zap, and every one of them appears in it, enriched. */
  lemma FeedHoldsEveryEvent(msgs: seq<ChatMessage>, zaps: seq<ZapEvent>, profiles: map<string, Profile>)
    ensures |FeedOf(msgs, zaps, profiles)| == |msgs| + |zaps|
    ensures forall i :: 0 <= i < |msgs| ==> EnrichMessage(msgs[i], profiles) in FeedOf(msgs, zaps, profiles)
    ensures forall i :: 0 <= i < |zaps| ==> EnrichZap(zaps[i], profiles) in FeedOf(msgs, zaps, profiles)
  {
    var m := MessageItems(msgs, profiles);
    var z := ZapItems(zaps, profiles);
    var feed := FeedOf(msgs, zaps, profiles);
    assert multiset(feed) == multiset(m) + multiset(z);
    PermutationKeepsMembers(m, z, feed);
    forall i | 0 <= i < |msgs| ensures EnrichMessage(msgs[i], profiles) in feed {
      assert m[i] == EnrichMessage(msgs[i], profiles) && m[i] in m;
    }
    forall i | 0 <= i < |zaps| ensures EnrichZap(zaps[i], profiles) in feed {
      assert z[i] == EnrichZap(zaps[i], profiles) && z[i] in z;
    }
  }

  lemma {:induction false} AtTimeAppend(a: seq<FeedItem>, b: seq<FeedItem>, t: int)
    ensures AtTime(a + b, t) == AtTime(a, t) + AtTime(b, t)
    decreases |b|
  {
    if b != [] {
      var b' := b[..|b| - 1];
      assert (a + b)[..|a + b| - 1] == a + b';
      assert (a + b)[|a + b| - 1] == b[|b| - 1];
      AtTimeAppend(a, b', t);
    } else {
      assert a + b == a;
    }
  }

  lemma {:induction false} InsertByTimeSorted(items: seq<FeedItem>, x: FeedItem)
    requires SortedByTime(items)
    ensures SortedByTime(InsertByTime(items, x))
  {
    if !(items == [] || items[|items| - 1].CreatedAt() <= x.CreatedAt()) {
      var init := items[..|items| - 1];
      var last := items[|items| - 1];
      assert SortedByTime(init);
      InsertByTimeSorted(init, x);
      var r := InsertByTime(init, x);
      forall y | y in r ensures y.CreatedAt() <= last.CreatedAt() {
        assert y in multiset(r);
        if y != x {
          var k :| 0 <= k < |init| && init[k] == y;
          assert items[k] == y;
        }
      }
      var out := r + [last];
      assert InsertByTime(items, x) == out;
      forall i, j | 0 <= i < j < |out| ensures out[i].CreatedAt() <= out[j].CreatedAt() {
        assert out[i] == r[i] && r[i] in r;
        if j < |r| {
          assert out[j] == r[j];
        }
      }
    }
  }

  /** Two tails of which one is empty can be appended in either order. */
  lemma SwapEmpty<T>(a: seq<T>, b: seq<T>, c: seq<T>)
    requires b == [] || c == []
    ensures (a + b) + c == (a + c) + b
  {
    if b == [] {
      assert a + b == a;
    } else {
      assert a + c == a;
    }
  }

  /** Insertion puts `x` behind every item of the same time already present. */
  lemma {:induction false} InsertByTimeAtTime(items: seq<FeedItem>, x: FeedItem, t: int)
    ensures AtTime(InsertByTime(items, x), t) == AtTime(items, t) + (if x.CreatedAt() == t then [x] else [])
  {
    if items == [] || items[|items| - 1].CreatedAt() <= x.CreatedAt() {
      AtTimeSnoc(items, x, t);
    } else {
      var init := items[..|items| - 1];
      var last := items[|items| - 1];
      var r := InsertByTime(init, x);
      var xs := if x.CreatedAt() == t then [x] else [];
      var ls := if last.CreatedAt() == t then [last] else [];
      assert items == init + [last];
      calc {
        AtTime(InsertByTime(items, x), t);
        AtTime(r + [last], t);
        { AtTimeSnoc(r, last, t); }
        AtTime(r, t) + ls;
        { InsertByTimeAtTime(init, x, t); }
        (AtTime(init, t) + xs) + ls;
        { SwapEmpty(AtTime(init, t), xs, ls); }
        (AtTime(init, t) + ls) + xs;
        { AtTimeSnoc(init, last, t); }
        AtTime(items, t) + xs;
      }
    }
  }

  /**
   * The sort is a stable sort by time: the result is ordered by time, is a
   * permutation of the input, and items of equal time keep their order.
   */
  lemma {:induction false} SortByTimeIsStableSort(items: seq<FeedItem>)
    ensures SortedByTime(SortByTime(items))
    ensures multiset(SortByTime(items)) == multiset(items)
    ensures forall t :: AtTime(SortByTime(items), t) == AtTime(items, t)
  {
    if items != [] {
      var init := items[..|items| - 1];
      var last := items[|items| - 1];
      SortByTimeIsStableSort(init);
      InsertByTimeSorted(SortByTime(init), last);
      forall t ensures AtTime(SortByTime(items), t) == AtTime(items, t) {
        InsertByTimeAtTime(SortByTime(init), last, t);
      }
    }
  }

  /**
   * The feed holds one item per message and per zap, ordered by time; at
   * equal times messages come before zaps and each keeps its stored order.
   */
  lemma FeedOrder(msgs: seq<ChatMessage>, zaps: seq<ZapEvent>, profiles: map<string, Profile>)
    ensures var feed := FeedOf(msgs, zaps, profiles);
            && |feed| == |msgs| + |zaps|
            && multiset(feed) == multiset(MessageItems(msgs, profiles)) + multiset(ZapItems(zaps, profiles))
            && SortedByTime(feed)
            && forall t :: AtTime(feed, t) == AtTime(MessageItems(msgs, profiles), t) + AtTime(ZapItems(zaps, profiles), t)
  {
    var items := MessageItems(msgs, profiles) + ZapItems(zaps, profiles);
    SortByTimeIsStableSort(items);
    assert |multiset(FeedOf(msgs, zaps, profiles))| == |multiset(items)|;
    forall t ensures AtTime(items, t) == AtTime(MessageItems(msgs, profiles), t) + AtTime(ZapItems(zaps, profiles), t) {
      AtTimeAppend(MessageItems(msgs, profiles), ZapItems(zaps, profiles), t);
    }
  }

  /** An item carries the name and avatar the cache gives for its sender. */
  predicate Enriched(item: FeedItem, profiles: map<string, Profile>) {
    match item
    case MessageItem(m, name, avatar) =>
      name == DisplayName(Lookup(profiles, m.pubkey), m.pubkey) && avatar == Avatar(Lookup(profiles, m.pubkey))
    case ZapItem(z, name, avatar) =>
      name == DisplayName(Lookup(profiles, z.senderPubkey), z.senderPubkey) && avatar == Avatar(Lookup(profiles, z.senderPubkey))
  }

  /** What an unsorted item shows: a stored message or zap, enriched from the cache. */
  predicate ShowsStored(x: FeedItem, msgs: seq<ChatMessage>, zaps: seq<ZapEvent>, profiles: map<string, Profile>) {
    && Enriched(x, profiles)
    && (x.MessageItem? ==> x.message in msgs)
    && (x.ZapItem? ==> x.zap in zaps)
  }

  lemma ItemsShowStored(msgs: seq<ChatMessage>, zaps: seq<ZapEvent>, profiles: map<string, Profile>, x: FeedItem)
    requires x in MessageItems(msgs, profiles) + ZapItems(zaps, profiles)
    ensures ShowsStored(x, msgs, zaps, profiles)
  {
    var mi := MessageItems(msgs, profiles);
    var zi := ZapItems(zaps, profiles);
    if x in mi {
      var i :| 0 <= i < |mi| && mi[i] == x;
      assert x == EnrichMessage(msgs[i], profiles);
    } else {
      assert x in zi;
      var i :| 0 <= i < |zi| && zi[i] == x;
      assert x == EnrichZap(zaps[i], profiles);
    }
  }

  /**
   * Every feed item shows a stored message or zap, with the display name
   * `displayName || name || shortenPubkey(pubkey)` and the avatar of its
   * sender's current profile entry.
   */
  lemma FeedItemsEnriched(msgs: seq<ChatMessage>, zaps: seq<ZapEvent>, profiles: map<string, Profile>)
    ensures forall x :: x in FeedOf(msgs, zaps, profiles) ==> ShowsStored(x, msgs, zaps, profiles)
  {
    var items := MessageItems(msgs, profiles) + ZapItems(zaps, profiles);
    var feed := FeedOf(msgs, zaps, profiles);
    assert multiset(feed) == multiset(items);
    forall x | x in feed ensures ShowsStored(x, msgs, zaps, profiles) {
      assert x in multiset(feed);
      assert x in multiset(items);
      ItemsShowStored(msgs, zaps, profiles, x);
    }
  }

  // ------------------------------------------------- profiles and the feed

  /** An item without its display fields: the stored message or zap alone. */
  function Bare(item: FeedItem): (r: FeedItem)
    ensures r.CreatedAt() == item.CreatedAt()
  {
    match item
    case MessageItem(m, _, _) => MessageItem(m, "", None)
    case ZapItem(z, _, _) => ZapItem(z, "", None)
  }

  function BareAll(items: seq<FeedItem>): (r: seq<FeedItem>)
    ensures |r| == |items|
    ensures forall i :: 0 <= i < |items| ==> r[i] == Bare(items[i])
  {
    if items == [] then [] else BareAll(items[..|items| - 1]) + [Bare(items[|items| - 1])]
  }

  lemma {:induction false} InsertByTimeBare(items: seq<FeedItem>, x: FeedItem)
    ensures BareAll(InsertByTime(items, x)) == InsertByTime(BareAll(items), Bare(x))
  {
    if !(items == [] || items[|items| - 1].CreatedAt() <= x.CreatedAt()) {
      var init := items[..|items| - 1];
      InsertByTimeBare(init, x);
      assert BareAll(items)[..|items| - 1] == BareAll(init);
    }
  }

  lemma {:induction false} SortByTimeBare(items: seq<FeedItem>)
    ensures BareAll(SortByTime(items)) == SortByTime(BareAll(items))
  {
    if items != [] {
      var init := items[..|items| - 1];
      SortByTimeBare(init);
      InsertByTimeBare(SortByTime(init), items[|items| - 1]);
      assert BareAll(items)[..|items| - 1] == BareAll(init);
    }
  }

  lemma BareAllAppend(a: seq<FeedItem>, b: seq<FeedItem>)
    ensures BareAll(a + b) == BareAll(a) + BareAll(b)
  {
  }

  lemma BareItemsIgnoreProfiles(msgs: seq<ChatMessage>, zaps: seq<ZapEvent>,
                                profiles1: map<string, Profile>, profiles2: map<string, Profile>)
    ensures BareAll(MessageItems(msgs, profiles1)) == BareAll(MessageItems(msgs, profiles2))
    ensures BareAll(ZapItems(zaps, profiles1)) == BareAll(ZapItems(zaps, profiles2))
  {
    var m1 := MessageItems(msgs, profiles1);
    var m2 := MessageItems(msgs, profiles2);
    forall i | 0 <= i < |msgs| ensures Bare(m1[i]) == Bare(m2[i]) {
      assert m1[i] == EnrichMessage(msgs[i], profiles1);
      assert m2[i] == EnrichMessage(msgs[i], profiles2);
    }
    var z1 := ZapItems(zaps, profiles1);
    var z2 := ZapItems(zaps, profiles2);
    forall i | 0 <= i < |zaps| ensures Bare(z1[i]) == Bare(z2[i]) {
      assert z1[i] == EnrichZap(zaps[i], profiles1);
      assert z2[i] == EnrichZap(zaps[i], profiles2);
    }
    assert BareAll(m1) == BareAll(m2);
    assert BareAll(z1) == BareAll(z2);
  }

  /**
   * The profile cache only decorates the feed: with any two caches the feed
   * lists the same messages and zaps in the same order, so a profile that
   * arrives later renames items without re-inserting them.
   */
  lemma FeedOrderIgnoresProfiles(msgs: seq<ChatMessage>, zaps: seq<ZapEvent>,
                                 profiles1: map<string, Profile>, profiles2: map<string, Profile>)
    ensures BareAll(FeedOf(msgs, zaps, profiles1)) == BareAll(FeedOf(msgs, zaps, profiles2))
  {
    var items1 := MessageItems(msgs, profiles1) + ZapItems(zaps, profiles1);
    var items2 := MessageItems(msgs, profiles2) + ZapItems(zaps, profiles2);
    SortByTimeBare(items1);
    SortByTimeBare(items2);
    BareAllAppend(MessageItems(msgs, profiles1), ZapItems(zaps, profiles1));
    BareAllAppend(MessageItems(msgs, profiles2), ZapItems(zaps, profiles2));
    BareItemsIgnoreProfiles(msgs, zaps, profiles1, profiles2);
    assert BareAll(items1) == BareAll(items2);
  }

  /** With no stored messages or zaps, as right after a disconnect, the feed is empty. */
  lemma FeedOfEmptySession(profiles: map<string, Profile>)
    ensures FeedOf([], [], profiles) == []
  {
  }

  /**
   * A pubkey whose fetch has begun but not succeeded (or failed, or found
   * nothing) is shown by its shortened key.
   */
  lemma PlaceholderShowsShortKey(profiles: map<string, Profile>, pubkey: string, outcome: FetchOutcome)
    requires pubkey !in profiles && !outcome.Found?
    ensures DisplayName(Lookup(CompleteFetch(BeginFetch(profiles, pubkey), pubkey, outcome), pubkey), pubkey)
            == ShortenPubkey(pubkey)
  {
  }

  /**
   * After a successful fetch the sender is shown by the document's
   * `display_name`, else its `displayName`, else its `name`, else the
   * shortened key (empty strings counting as absent).
   */
  lemma FetchedProfileShowsName(profiles: map<string, Profile>, pubkey: string, m: Metadata)
    ensures var shown := DisplayName(Lookup(CompleteFetch(profiles, pubkey, Found(m)), pubkey), pubkey);
            shown == if m.display_name.Some? && m.display_name.value != "" then m.display_name.value
                     else if m.displayName.Some? && m.displayName.value != "" then m.displayName.value
                     else if m.name.Some? && m.name.value != "" then m.name.value
                     else ShortenPubkey(pubkey)
  {
  }
}
