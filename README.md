# Nostr live-stream chat: a verified model of the chat session

This project models, in Dafny, the chat session of a Nostr live-stream viewer: the
`NostrService` of `src/app/services/nostr.service.ts` and two string helpers of
`src/app/chat/chat.component.ts`.

The service does these things:
- It resolves an `naddr` (a NIP-19 address of a NIP-53 live activity) into relays and a NIP-53 `a` tag.
- It opens three relay subscriptions: the activity, kind-1311 chat messages and kind-9735 zap receipts.
- It stores chat messages and zap receipts, deduplicated by event id.
- It reads each zap's amount from the BOLT #11 invoice in the receipt.
- It caches sender profiles, with at most one fetch per pubkey.
- It derives a feed: messages and zaps in time order, with display names.

Layout, one module per file:

- `wrappers.dfy` (`Wrappers`): `Option`.
- `text.dfy` (`Text`): ASCII versions of `trim`, `split` on one character, and `toUpperCase`.
- `decimal.dfy` (`Decimal`): `parseInt` of a digit run, and the decimal rendering of an integer.
- `types.dfy` (`Types`): events, messages, zaps, profiles, metadata, filters, the NIP-19 decoding result, and JavaScript `||` on optional strings.
- `bolt11.dfy` (`Bolt11`): `parseAmountFromBolt11`.
- `relays.dfy` (`Relays`): `decodeNaddr`, the default relays, the relay merge, the `a` tag and the three filters.
- `store.dfy` (`Store`): the message list, the zap list and the profile cache, as functions on values. It also holds the lemmas about any sequence of deliveries.
- `feed.dfy` (`Feed`): the `feed` derivation, `shortenPubkey` and the display-name fallback.
- `service.dfy` (`Service`): the `NostrService` class. Its methods update the fields in place and are proved against the functions of `Store`, `Relays` and `Feed`. The class invariant `Valid` says:
  - stored message ids are distinct, and so are zap ids;
  - no profile is requested twice;
  - every requested profile has a cache entry;
  - the session is connected exactly when it holds its three subscriptions.
- `chat.dfy` (`Chat`): `getInitials` and the split of the `relays` query parameter.

Outside calls become inputs of the model:
- NIP-19 decoding: `Connect` receives its result (`Nip19Decoded`).
- `JSON.parse` of a zap request: `HandleZapEvent` receives a parsing function.
- A profile fetch: it is split into `FetchProfileIfNeeded` and `CompleteProfileFetch`.
  - `FetchProfileIfNeeded` is the synchronous part. It inserts the placeholder and issues the request.
  - `CompleteProfileFetch` is the later step. It takes the outcome (`Failed`, `NotFound` or `Found(metadata)`).
  - The ghost field `requested` logs the pubkeys whose fetch was issued. `FetchProfileIfNeeded` returns the request's filter, `{kinds: [0], authors: [pubkey]}`.
  - A completion is accepted only for a pubkey whose fetch was issued.

Behaviour of the code that the model keeps:
- The relay list is ordered. It holds the hints, then the caller's relays, then the defaults, in first-seen order.
- A receipt without a `bolt11` tag is stored, with amount 0. No parseable invoice is required.
- Nothing checks that the embedded zap request is signed or well formed. The model's request parser yields a `pubkey` string or `None` (see "Left out" for requests without a string `pubkey`).
- The chat subscription asks for the author's profile even when the message is a duplicate (lines 174-177).
- No transport error is caught in `connect`.

The invoice parser reads only the pattern `lnbc(\d+)([munp]?)`, not the BOLT #11 structure. The greedy digit run also takes the `1` that separates the human-readable part from the data. So `lnbc20` + `1` + data starting with `p` reads as 201 pico-bitcoin, which is 0 satoshis. An invoice without an amount reads `1` and the first data character. The data part begins with the timestamp, whose first character is `p` for every date from 2004 to 2038. So such an invoice (`lnbc1p…`) reads as one pico-bitcoin, which is 0 satoshis. Only a data part starting with neither a digit nor `m`/`u`/`n`/`p` (as in `lnbc1qq`, a timestamp before 2004) reads as one whole bitcoin. The model keeps this behaviour. `ParseExampleSeparatorAsDigit`, `ParseExampleNoAmountTimestamped` and `ParseExampleNoAmount` state it.

## Model

| member | source | states |
|---|---|---|
| `Relays.DecodeNaddr` | src/app/services/nostr.service.ts:109-125 | An `naddr` entity yields its kind, pubkey and identifier; a missing relay list becomes `[]`. Another entity type or a decoding error yields `None`. |
| `Relays.Dedup` | src/app/services/nostr.service.ts:138-142 | `[...new Set(s)]` has no duplicates and holds exactly the elements of `s`. |
| `Relays.DedupKeepsFirstOccurrenceOrder` | src/app/services/nostr.service.ts:138-142 | The deduplicated list is ordered by each element's first occurrence in the input. |
| `Relays.MergeRelays` | src/app/services/nostr.service.ts:137-142 | The session's relays contain every element of hints, additional relays and defaults, and nothing else. They have no duplicates and keep first-occurrence order. |
| `Relays.MergeRelaysExample` | src/app/services/nostr.service.ts:138-142 | Hints `[a]`, extra `[b]` and defaults `[c, a]` give `[a, b, c]`. |
| `Relays.FirstIndexSnoc` | src/app/services/nostr.service.ts:138-142 | Appending an element to the merged input list keeps the first index of every element already present. The first-occurrence order proof relies on this. |
| `Relays.DefaultRelaysAreDistinct` | src/app/services/nostr.service.ts:47-58 | The fallback relay list holds ten relays, all distinct. |
| `Relays.ATag` | src/app/services/nostr.service.ts:148 | The `a` tag `${kind}:${pubkey}:${identifier}`. Its contract is stated by `ATagRoundTrip`, `ATagInjective` and `ATagColons`. |
| `Relays.ATagColons` | src/app/services/nostr.service.ts:148 | The tag has exactly two colons beyond those in the pubkey and the identifier: the rendered kind has none. |
| `Relays.ActivityFilter` | src/app/services/nostr.service.ts:151 | The activity filter `{kinds: [kind], authors: [pubkey], #d: [identifier]}`. `Connect` states that the first subscription uses it. |
| `Relays.ChatFilter` | src/app/services/nostr.service.ts:169 | The chat filter `{kinds: [1311], #a: [aTag]}`. `Connect` states that the second subscription uses it. |
| `Relays.ZapFilter` | src/app/services/nostr.service.ts:186 | The zap filter `{kinds: [9735], #a: [aTag]}`. `Connect` states that the third subscription uses it. |
| `Relays.ProfileFilter` | src/app/services/nostr.service.ts:300 | The profile filter `{kinds: [0], authors: [pubkey]}`. `FetchProfileIfNeeded` states that every request it issues uses it. |
| `Relays.ATagRoundTrip` | src/app/services/nostr.service.ts:148 | The `a` tag `kind:pubkey:identifier` reads back into its three parts when the pubkey has no colon. |
| `Relays.ATagInjective` | src/app/services/nostr.service.ts:148 | Two activities share an `a` tag only if kind, pubkey and identifier are all equal. |
| `Decimal.DigitsValue` | src/app/services/nostr.service.ts:269 | `parseInt(digits, 10)` of a run of digits. `NatToStringRoundTrip` and `DigitsValueLeadingZero` specify it. |
| `Decimal.DigitsValueLeadingZero` | src/app/services/nostr.service.ts:269 | A leading zero does not change the value read, as with `parseInt`. |
| `Decimal.IntToString` | src/app/services/nostr.service.ts:148 | `${kind}`: a non-empty numeral with no colon, read back by `IntToStringRoundTrip`. |
| `Decimal.NatToStringRoundTrip` | src/app/services/nostr.service.ts:269 | `parseInt(·, 10)` of the decimal numeral of `n` is `n`. |
| `Decimal.IntToStringRoundTrip` | src/app/services/nostr.service.ts:148 | The kind written into the `a` tag, a possibly negative integer, reads back to itself. |
| `Bolt11.FindMatch` | src/app/services/nostr.service.ts:264 | Returns the leftmost position where the unanchored, case-insensitive `lnbc\d` matches, or `None` when it matches nowhere. |
| `Bolt11.DigitRunEnd` | src/app/services/nostr.service.ts:264 | The `\d+` group is greedy: it is all digits and is followed by a non-digit or the end. |
| `Bolt11.DigitRunEndAt` | src/app/services/nostr.service.ts:264 | The greedy digit run ends exactly at the first non-digit after an all-digit stretch. |
| `Bolt11.SatsFor` | src/app/services/nostr.service.ts:272-283 | The `switch` on the captured multiplier. `SatsForAtMostWholeBitcoin` and `ParseEncodedAmount` specify it. |
| `Bolt11.SatsForAtMostWholeBitcoin` | src/app/services/nostr.service.ts:272-283 | No multiplier gives more than the whole-bitcoin reading. Anything but `m`, `u`, `n` or `p` (upper-case letters included) falls to ×100000000. |
| `Bolt11.ParseAmountFromBolt11` | src/app/services/nostr.service.ts:261-284 | Returns 0 when no `lnbc<digit>` occurs anywhere. The result is never negative. |
| `Bolt11.ParseAmountAt` | src/app/services/nostr.service.ts:264-270 | The first case-insensitive `lnbc` followed by digits is the one read, after any lead-in without a match of its own. Its whole greedy digit run is read, leading zeros included, and then the optional multiplier letter that follows. |
| `Bolt11.ParseEncodedAmount` | src/app/services/nostr.service.ts:264-283 | For any such lead-in, any casing of `lnbc` and any digit run of value N: `m` gives N·100000, `u` N·100, `n` ⌊N/10⌋, `p` ⌊N/10000⌋, and no letter N·100000000. |
| `Bolt11.UpperCaseMultiplierIsWholeBitcoin` | src/app/services/nostr.service.ts:264-282 | For any lead-in and any casing of `lnbc`, an upper-case `M`/`U`/`N`/`P` is captured but falls to the ×100000000 default. |
| `Bolt11.ParseExampleMilli` | src/app/services/nostr.service.ts:273-274 | `lnbc100m` gives 10000000. |
| `Bolt11.ParseExampleMicro` | src/app/services/nostr.service.ts:275-276 | `lnbc500u` gives 50000. |
| `Bolt11.ParseExampleNano` | src/app/services/nostr.service.ts:277-278 | `lnbc1n` gives 0. |
| `Bolt11.ParseExampleWhole` | src/app/services/nostr.service.ts:281-282 | `lnbc2` gives 200000000. |
| `Bolt11.ParseExampleUpperCase` | src/app/services/nostr.service.ts:264-282 | The all-upper-case `LNBC2500U1` gives 250000000000 (2500 whole bitcoin). |
| `Bolt11.ParseExampleSeparatorAsDigit` | src/app/services/nostr.service.ts:264-283 | `lnbc201pvj` gives 0. The greedy run takes the separator `1` of a 20-bitcoin invoice, and `p` then reads as pico. |
| `Bolt11.ParseExampleNoAmountTimestamped` | src/app/services/nostr.service.ts:264-283 | `lnbc1pvjluez`, an invoice without an amount whose data starts with the timestamp character `p`, gives 0. The separator `1` and `p` read as one pico-bitcoin. |
| `Bolt11.ParseExampleNoAmount` | src/app/services/nostr.service.ts:264-283 | `lnbc1qq`, an invoice without an amount whose data starts with neither a digit nor a multiplier letter, gives 100000000. The separator alone reads as one bitcoin. |
| `Bolt11.ParseExampleLeadIn` | src/app/services/nostr.service.ts:264-274 | `xlnbc05m` gives 500000: the match need not start the string, and `05` reads as 5. |
| `Store.MessageFrom` | src/app/services/nostr.service.ts:210-215 | The stored message `{id, pubkey, content, createdAt}` copied from the event. `AddMessage` states that a new event appends exactly this. |
| `Store.AddMessage` | src/app/services/nostr.service.ts:204-218 | A known id leaves the list unchanged. A new id appends exactly one `{id, pubkey, content, createdAt}` at the end, and earlier entries stay. Distinct ids stay distinct. |
| `Store.DeliverMessagesKeepsIdsUnique` | src/app/services/nostr.service.ts:204-218 | After any sequence of chat events, in any order and with repeats, ids are pairwise distinct. An id is stored iff it was stored before or some event carries it. |
| `Store.FindTag` | src/app/services/nostr.service.ts:227 | `tags.find(t => t[0] === name)` is the first tag with that name, or `None` when no tag has it. |
| `Store.TagValue` | src/app/services/nostr.service.ts:228 | `tag?.[1]` is present exactly when the tag exists and has a second element. |
| `Store.FirstValue` | src/app/services/nostr.service.ts:227-228 | `tags.find(t => t[0] === name)?.[1]`. `FirstValueOfFirstTag` specifies it. |
| `Store.FirstValueOfFirstTag` | src/app/services/nostr.service.ts:241-246 | The value read is the second element of the first tag with that name, and absent when that tag has no second element. |
| `Store.DecodeZap` | src/app/services/nostr.service.ts:226-255 | A receipt decodes iff its first `description` value is present, non-empty and parses. Amount is the parse of the first `bolt11` value or `""`; recipient is the first `p` value or `""`. Sender and content come from the request, content defaulting to `""`. |
| `Store.AddZap` | src/app/services/nostr.service.ts:220-257 | Appends exactly one zap iff the id is new and the receipt decodes. Otherwise the list is unchanged. Distinct ids stay distinct. |
| `Store.ZapDropConditions` | src/app/services/nostr.service.ts:220-238 | A known id, a missing `description` tag, an empty description, or one that does not parse leaves the zap list unchanged. |
| `Store.ZapDefaults` | src/app/services/nostr.service.ts:240-246 | A stored receipt without a `bolt11` tag has amount 0. One without a `p` tag has recipient `""`. |
| `Store.DeliverZapsKeepsIdsUnique` | src/app/services/nostr.service.ts:220-257 | After any sequence of receipts, zap ids are pairwise distinct. An id is stored iff it was stored before or a decodable receipt carries it. |
| `Store.Placeholder` | src/app/services/nostr.service.ts:295 | The entry `{pubkey}` that marks a fetch in flight. `BeginFetch` states that an unknown pubkey gets it. |
| `Store.ProfileFrom` | src/app/services/nostr.service.ts:303-309 | The profile built from a fetched document, with `displayName = display_name || displayName`. `CompleteFetch` states that a found document stores it. |
| `Store.BeginFetch` | src/app/services/nostr.service.ts:286-297 | A known pubkey changes nothing. An unknown one gets the placeholder `{pubkey}`. Every other entry is unchanged. |
| `Store.CompleteFetch` | src/app/services/nostr.service.ts:299-318 | A found document overwrites the entry with `displayName = display_name \|\| displayName`. A failure or "not found" leaves the cache, and so the placeholder, as it was. |
| `Store.SingleFlight` | src/app/services/nostr.service.ts:286-318 | Over any interleaving of requests and completions: no pubkey is fetched twice, and only pubkeys absent at the start are fetched, each after a request. Entries are never removed, and every requested pubkey keeps an entry. |
| `Feed.ShortenPubkey` | src/app/services/nostr.service.ts:331-336 | A key of length ≤ 12 is returned unchanged. A longer one becomes its first 6 characters + `...` + its last 6 (length 15). |
| `Feed.ShortenPubkeyIdempotent` | src/app/services/nostr.service.ts:331-336 | Shortening a shortened key changes nothing. |
| `Feed.DisplayName` | src/app/services/nostr.service.ts:86 | `profile?.displayName || profile?.name || shortenPubkey(pubkey)`: the shortened key, or a non-empty display name or name from the profile. Without a profile, it is the shortened key. |
| `Feed.Avatar` | src/app/services/nostr.service.ts:87 | `profile?.picture`. `FeedItemsEnriched` states that each item carries it. |
| `Feed.MessageItems` | src/app/services/nostr.service.ts:80-91 | One item per stored message, in stored order: item i is message i with the display name and avatar of its author's current profile. |
| `Feed.ZapItems` | src/app/services/nostr.service.ts:93-104 | One item per stored zap, in stored order: item i is zap i with the display name and avatar of its sender's current profile. |
| `Feed.InsertByTime` | src/app/services/nostr.service.ts:106 | Inserting adds exactly the new item (multiset). |
| `Feed.SortByTime` | src/app/services/nostr.service.ts:106 | The sort is a permutation of its input. |
| `Feed.InsertByTimeSorted` | src/app/services/nostr.service.ts:106 | Inserting into a time-ordered list keeps it ordered. |
| `Feed.InsertByTimeAtTime` | src/app/services/nostr.service.ts:106 | An inserted item goes behind every item with the same time. |
| `Feed.AtTimeAppend` | src/app/services/nostr.service.ts:78-104 | The items of one time in `a + b` are those of `a`, then those of `b`. |
| `Feed.SortByTimeIsStableSort` | src/app/services/nostr.service.ts:106 | The sort orders by `createdAt`, is a permutation, and keeps the input order of items with equal times. |
| `Feed.FeedOf` | src/app/services/nostr.service.ts:73-107 | `feed`: the enriched messages and zaps sorted by time. It has no contract of its own. `FeedHoldsEveryEvent`, `FeedOrder` and `FeedItemsEnriched` state its properties. |
| `Feed.FeedHoldsEveryEvent` | src/app/services/nostr.service.ts:73-107 | `feed` has one item per stored message and zap, and each stored message and zap appears in it, enriched. `FeedOrder` gives the order. |
| `Feed.FeedOrder` | src/app/services/nostr.service.ts:73-107 | The feed has \|messages\| + \|zaps\| items and is non-decreasing in `createdAt`. At equal times, messages come before zaps and each keeps its insertion order. |
| `Feed.FeedItemsEnriched` | src/app/services/nostr.service.ts:80-104 | Each item shows a stored message or zap, with display name `displayName \|\| name \|\| shortenPubkey(pubkey)` and the avatar of its sender's current profile. |
| `Feed.FeedOrderIgnoresProfiles` | src/app/services/nostr.service.ts:73-107 | The profile cache only decorates the feed. Two caches give the same events in the same order, so a later profile renames items without re-inserting them. |
| `Feed.BareAll` | src/app/services/nostr.service.ts:84-101 | Stripping display fields is done item by item. |
| `Feed.FeedOfEmptySession` | src/app/services/nostr.service.ts:321-329 | With the lists emptied by a disconnect, the feed is empty. |
| `Feed.PlaceholderShowsShortKey` | src/app/services/nostr.service.ts:292-297 | A pubkey whose fetch began but did not succeed is shown by its shortened key. |
| `Feed.FetchedProfileShowsName` | src/app/services/nostr.service.ts:303-314 | After a successful fetch, the sender is shown by `display_name`, else `displayName`, else `name`, else the shortened key. |
| `Service.Subscription.constructor` | src/app/services/nostr.service.ts:152-165 | `subscribeMany` yields an open handle on the given relays and filter. |
| `Service.Subscription.Close` | src/app/services/nostr.service.ts:323 | Closing marks the handle closed. |
| `Service.SomeMatches` | src/app/services/nostr.service.ts:206 | `some` is true iff some element passes the test. |
| `Service.NostrService.constructor` | src/app/services/nostr.service.ts:43-64 | A new service has no handles, messages, zaps or profiles, and is not connected. |
| `Service.NostrService.Feed` | src/app/services/nostr.service.ts:73-107 | The feed of the current fields: as many items as stored messages and zaps, and every stored message appears in it, enriched. |
| `Service.NostrService.Disconnect` | src/app/services/nostr.service.ts:321-329 | Every held handle is closed. Afterwards there are no handles, the flag is false, and messages and zaps are empty. The profile cache is unchanged. Since the new state depends only on the unchanged cache, a second call changes nothing. |
| `Service.NostrService.Connect` | src/app/services/nostr.service.ts:127-202 | Disconnects first. An undecodable address leaves the session disconnected, with no handles and empty lists. Otherwise there are three fresh open handles on the merged relays, with the activity, chat (`#a`) and zap (`#a`) filters, and the flag is true. |
| `Service.NostrService.FetchProfileIfNeeded` | src/app/services/nostr.service.ts:286-300 | Issues a fetch iff the pubkey has no cache entry, with the filter `{kinds: [0], authors: [pubkey]}`. In that case the placeholder is stored first. The invariant keeps requests free of duplicates. |
| `Service.NostrService.CompleteProfileFetch` | src/app/services/nostr.service.ts:299-318 | For a fetch that was issued, the cache becomes `CompleteFetch` of the old cache. Nothing else changes. |
| `Service.NostrService.HandleChatMessage` | src/app/services/nostr.service.ts:204-218 | The message list becomes `AddMessage` of the old one. Nothing else changes. |
| `Service.NostrService.OnChatEvent` | src/app/services/nostr.service.ts:174-177 | Stores the message, then begins the author's profile fetch, duplicates included. |
| `Service.NostrService.HandleZapEvent` | src/app/services/nostr.service.ts:220-259 | The zap list becomes `AddZap` of the old one. A stored zap begins its sender's profile fetch. A dropped receipt leaves the cache and the request log unchanged. |
| `Text.Trim` | src/app/chat/chat.component.ts:272 | `trim` returns a slice of the input with no white space at either end. Everything cut off is white space. |
| `Text.SplitOn` | src/app/chat/chat.component.ts:272 | `split(',')` gives one piece more than there are commas, and no piece contains a comma. |
| `Text.JoinSplitOn` | src/app/chat/chat.component.ts:272 | Joining the pieces with the separator gives the string back. |
| `Text.Upper` | src/app/chat/chat.component.ts:297-299 | `toUpperCase` keeps the length and upper-cases every letter. |
| `Chat.SplitNameFrom` | src/app/chat/chat.component.ts:295 | `split(/[\s_-]+/)` gives at least one part, and no part contains a separator. The first part is the text up to the first separator. A name without a separator is a single part. Otherwise the second part is the word after the first run of separators, which may be empty at the end of the name. |
| `Chat.SplitName` | src/app/chat/chat.component.ts:295 | `name.split(/[\s_-]+/)`: `SplitNameFrom` from the start of the name. |
| `Chat.SplitNameHasSeveralParts` | src/app/chat/chat.component.ts:295-296 | A name has two or more parts iff it contains a separator. |
| `Chat.GetInitials` | src/app/chat/chat.component.ts:291-300 | An absent or empty name gives `?`. A name with a separator gives the upper-cased first character, then the upper-cased first character after the first separator run (length 2). Otherwise, the first two characters upper-cased (length 1 or 2). |
| `Chat.RelaysFromQuery` | src/app/chat/chat.component.ts:272 | An absent or empty parameter gives `[]`. Otherwise there is one entry per comma-separated piece (commas + 1), each the trimmed piece. |
| `Chat.RelaysFromQueryAreClean` | src/app/chat/chat.component.ts:272 | The pieces join back into the parameter. No relay contains a comma or starts or ends with white space. |

## Left out

- NIP-19 bech32/TLV decoding (`nip19.decode`, `nostr-tools`) is not part of this model. Its result is an input of `Connect`.
- `SimplePool`, WebSockets and `async`/`await` are not modelled:
  - opening a subscription is the `Subscription` constructor and never fails;
  - the chat and zap event callbacks are the handler methods `OnChatEvent` and `HandleZapEvent`, called by the environment;
  - the end-of-stored-events callbacks (`oneose`, lines 161-163, 178-180, 194-196) only log, and are left out with the rest of the logging;
  - a profile fetch is a begin step plus a separate completion step.
- `JSON.parse` of the zap description and of kind-0 content: the first is a parsing function passed in, the second is the fetch outcome. A kind-0 document that fails to parse counts as `Failed`.
- A description that parses to `null` makes the source throw outside its `try`, when line 250 reads `zapRequest.pubkey`. The model's parser yields `None` or a request with fields.
- Store.DecodeZap / Service.NostrService.HandleZapEvent: a description that parses to a number, string, boolean, array or object without a string `pubkey` is outside the model. `ZapRequest.pubkey` is a string, so the parser passed in must drop such a receipt or supply a string. In the source such a receipt is stored with whatever `zapRequest.pubkey` is (line 250): undefined for a non-object or a missing key, otherwise the value itself. `fetchProfileIfNeeded` then runs with that value (line 258), and `feed` may throw in `shortenPubkey` (lines 99, 331-336). `FeedOrder` and `FeedItemsEnriched` hold for the modelled receipts only.
- The relay list handed to profile fetches (the `relays` argument of `fetchProfileIfNeeded` and `handleZapEvent`) is not recorded.
- The activity subscription's event callback (lines 156-160) is left out. It sets `currentActivity` and repeats `isConnected = true`.
- `formatSats` (lines 338-346) is left out: it uses floating-point division and `toFixed(1)`.
- Logging, Angular signals and `computed` are not modelled. `feed` is a function of the fields.
- In `chat.component.ts`, the template, styles, auto-scroll effect, `onScroll`, route subscriptions and the `asMessage`/`asZap` casts are left out.
- `src/app/home/home.component.ts` and `src/app/app.routes.ts` are not part of this model.
- Characters are ASCII only: `toUpperCase`, `trim`, `\s` and the `i` flag use the ASCII letter and white-space sets.
- Chat.GetInitials: requires that the first two parts are non-empty (`InitialsDefined`), because of a leading separator or a single trailing run of separators:
  - in that case JavaScript produces a result containing `UNDEFINED`;
  - a name made only of separators throws;
  - the model does not cover these inputs.
- Bolt11.ParseAmountFromBolt11: amounts are unbounded integers. The source's `parseInt` and multiplications are IEEE doubles, which round above 2^53.
- Feed.SortByTime: it is one stable sort, insertion from the left. `Array.prototype.sort` is only required to be stable. The model proves the order, stability and permutation properties, not that it equals the engine's algorithm step by step.
