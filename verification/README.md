# TeamSpeak OBS overlay — a Dafny model of the data handler and the overlay's decisions

This project models the core of a TeamSpeak 5 overlay for OBS:

- **The TS5 data handler** (`TS5DataHandler`). It is an in-memory mirror of the connections, channels and clients that the TeamSpeak remote-app API reports.
  - Each entity has a composite key:
    - a connection is keyed by `id`;
    - a channel by `(id, connection.id)`;
    - a client by `(id, channel?.connection.id)`. A client without a channel has the key `(id, None)`.
  - The handler supports add, update, remove with cascade, `clearAll` and first-match lookup.
  - Every successful mutation pushes a full-list copy into a React state setter. Here each setter call is a `Notification` appended to the handler's `log`.
- **The talk-status badge.** This is the priority chain that picks one icon from a client's hardware, mute and talk flags. It also covers the extraction of the avatar URL from the `myteamspeakAvatar` property.
- **The viewer.** The `currentClients` mapping turns the client list into matching-or-`undefined` entries. The per-row decision then applies the client limit and the hide-non-talking option. The channel-name header and the connect hint are also modelled.

Modules:

- `Wrappers`: `Option`, and `Result` for thrown errors.
- `Lists`: `Array.prototype.find`, `indexOf`, `splice` and `filter`, modelled over a key function, plus key uniqueness.
- `Entities`: the entity records and their composite keys.
- `DataHandler`: the store.
- `Strings`: `String.prototype.indexOf`, `split` and `join` for a non-empty separator.
- `TalkStatus`: the icon chain and the avatar URL.
- `Viewer`: the row selection.

Behaviour of the code that the model keeps:

- `removeChannel` deletes every client whose `channel?.id` equals the removed channel's id, on any connection. It matches the channel id alone, not the channel's connection (see "## Findings").
- `getClientById` compares `channel?.connection.id` with a number. So a client without a channel can be added, but it can never be found by id.
- Every lookup is a linear first-match scan over the list.

## Model

| member | source | states |
|---|---|---|
| DataHandler.New | src/handlers/teamspeak/dataHandler.ts:21-34 | a new handler has three empty lists, satisfies key uniqueness and has notified nothing |
| DataHandler.ClearAll | src/handlers/teamspeak/dataHandler.ts:50-58 | all three lists become empty and exactly three empty snapshots are logged, in the order connections, channels, clients, even on an empty store |
| DataHandler.ClearAllTwice | src/handlers/teamspeak/dataHandler.ts:50-58 | a second clearAll leaves the same lists and logs three more empty snapshots |
| DataHandler.AddConnection | src/handlers/teamspeak/dataHandler.ts:61-73 | with the id present nothing changes and nothing is logged; otherwise the connection is appended at the end, the other lists stay, one snapshot of the new list is logged, and getConnectionById then finds it; key uniqueness is preserved |
| DataHandler.AddChannel | src/handlers/teamspeak/dataHandler.ts:75-86 | the same for channels keyed by (id, connection id), and getChannelById(id, connection id) afterwards returns the added channel |
| DataHandler.AddClient | src/handlers/teamspeak/dataHandler.ts:88-99 | the same for clients keyed by (id, channel's connection id or none); getClientById finds the added client when it has a channel |
| DataHandler.UpdateConnection | src/handlers/teamspeak/dataHandler.ts:102-113 | an absent id is a no-op with no notification; otherwise the first match is replaced wholesale at its index, the length and other lists are unchanged, one snapshot is logged, lookup returns the new value, and uniqueness is preserved |
| DataHandler.UpdateChannel | src/handlers/teamspeak/dataHandler.ts:115-126 | the same for channels |
| DataHandler.UpdateClient | src/handlers/teamspeak/dataHandler.ts:128-139 | the same for clients |
| DataHandler.RemoveConnection | src/handlers/teamspeak/dataHandler.ts:142-160 | an absent id is a no-op; otherwise the first match is spliced out, a channel survives iff it belongs to another connection, a client survives iff its channel's connection is not the removed one (channel-less clients survive), survivors keep their relative order, and channels, clients, connections are notified in that order |
| DataHandler.ChannelsOutside | src/handlers/teamspeak/dataHandler.ts:150 | a channel is kept iff it was there and belongs to another connection; the kept channels are a subsequence of the original and stay key-unique |
| DataHandler.ClientsOutside | src/handlers/teamspeak/dataHandler.ts:151 | a client is kept iff it was there and its channel's connection is not the given one, so channel-less clients are kept; order and key uniqueness are kept |
| DataHandler.RemoveConnectionCascade | src/handlers/teamspeak/dataHandler.ts:142-160 | after the removal no channel or client of that connection can be looked up, channel-less clients and other connections' channels stay, and exactly three snapshots are logged |
| DataHandler.RemoveChannel | src/handlers/teamspeak/dataHandler.ts:162-178 | an absent key is a no-op; otherwise the first match is spliced out, connections are unchanged, a client survives iff its channel id differs from the removed channel's id (channel-less clients survive), order is kept, and clients then channels are notified |
| DataHandler.ClientsOutsideChannel | src/handlers/teamspeak/dataHandler.ts:170 | a client is kept iff it was there and its channel id differs from the given id, whatever its connection; channel-less clients are kept; order and key uniqueness are kept |
| DataHandler.RemoveChannelCrossesConnections | src/handlers/teamspeak/dataHandler.ts:170 | removing channel 7 of connection 1 also deletes a client sitting in channel 7 of connection 2, while that connection's channel 7 stays; the intended cascade keeps that client |
| DataHandler.ClientsOutsideChannelKey | src/handlers/teamspeak/dataHandler.ts:169-170 | a client is kept iff it was there and is not in the channel with the given (id, connection id); order and key uniqueness are kept |
| DataHandler.IntendedRemoveChannel | src/handlers/teamspeak/dataHandler.ts:162-178 | as removeChannel, except that a client is deleted iff it sits in the removed channel itself (same id and connection); clients of other connections always survive; key uniqueness is preserved |
| DataHandler.RemoveClient | src/handlers/teamspeak/dataHandler.ts:180-191 | an absent key is a no-op; otherwise the first match is spliced out, the other lists are unchanged and exactly one client snapshot is logged |
| DataHandler.AddThenRemoveClient | src/handlers/teamspeak/dataHandler.ts:180-191 | removing a freshly added client restores all three lists, after two client snapshots |
| DataHandler.AddThenRemoveChannel | src/handlers/teamspeak/dataHandler.ts:162-178 | removing a freshly added channel restores all lists when no client sits in a channel with that id |
| DataHandler.SiblingClients | src/handlers/teamspeak/dataHandler.ts:88-99 | two clients with different keys can be added in either order and both end up present; removing one keeps the other |
| DataHandler.GetConnectionById | src/handlers/teamspeak/dataHandler.ts:194-196 | none iff no connection has the id; otherwise the first connection with that id |
| DataHandler.GetChannelById | src/handlers/teamspeak/dataHandler.ts:198-200 | none iff no channel has that (id, connection id); otherwise the first such channel |
| DataHandler.GetClientById | src/handlers/teamspeak/dataHandler.ts:202-204 | none iff no client has the id and a channel on that connection; a found client always has a channel on that connection and is the first match |
| DataHandler.ChannellessClientNotFound | src/handlers/teamspeak/dataHandler.ts:202-204 | adding a client without a channel never changes what getClientById returns |
| DataHandler.Apply | src/handlers/teamspeak/dataHandler.ts:50-191 | every public mutation preserves key uniqueness and only appends to the notification log |
| DataHandler.RunKeepsKeysUnique | src/handlers/teamspeak/dataHandler.ts:61-191 | after any sequence of calls on a store with unique keys, no list holds two entities with the same composite key |
| DataHandler.FreshRunKeepsKeysUnique | src/handlers/teamspeak/dataHandler.ts:21-191 | the same starting from a new handler |
| DataHandler.RunExtendsLog | src/handlers/teamspeak/dataHandler.ts:37-47 | the notification log of a later state extends that of an earlier state |
| TalkStatus.ChooseIcon | src/components/TalkStatus.tsx:30-44 | the chosen icon satisfies its own condition in the per-icon table; missing output hardware wins over everything; missing input hardware wins next; output mute wins over input mute; Talking requires talkStatus 1 and no avatar |
| TalkStatus.ExactlyOneIcon | src/components/TalkStatus.tsx:30-44 | for every client and avatar option, exactly one icon's condition holds, and it is the chosen icon |
| TalkStatus.AvatarUrl | src/components/TalkStatus.tsx:17-18 | with a "2," present there is always a URL and it contains no "2,"; without one, there is a URL iff the first ";" segment contains a comma |
| TalkStatus.AvatarUrlWithMarker | src/components/TalkStatus.tsx:17 | with a "2," present, the URL is the text from behind the first "2," up to the next "2," or the end, possibly empty; it contains no "2," |
| TalkStatus.AvatarUrlWithoutMarker | src/components/TalkStatus.tsx:17-18 | without a "2,", the URL is the second comma field of the first ";" segment, or undefined if that segment has no comma |
| TalkStatus.AvatarUrlRunsPastEntry | src/components/TalkStatus.tsx:14-17 | for every property whose first "2," is the default-avatar marker and whose URL is followed by ";" and later entries without a "2,", the URL read as written is the URL plus ";" plus those entries, while the intended reading is the URL alone |
| TalkStatus.AvatarUrlKeepsLaterEntries | src/components/TalkStatus.tsx:14-17 | on a property shaped like the documented one, the URL read as written keeps the following ";4,…" entry, while the intended reading stops at ";" |
| TalkStatus.IntendedAvatarUrl | src/components/TalkStatus.tsx:14-18 | the corrected URL is the as-written one cut at its first ";" (all of it when there is none), so it contains no ";"; it is undefined exactly when the as-written one is |
| Strings.Split | src/components/TalkStatus.tsx:17-18 | a split always has at least one piece, and exactly one iff the separator does not occur |
| Strings.SplitPiecesFree | src/components/TalkStatus.tsx:17-18 | no piece of a split contains the separator |
| Strings.JoinSplit | src/components/TalkStatus.tsx:17-18 | joining the pieces of a split with the same separator gives back the string |
| Viewer.CurrentClients | src/Viewer.tsx:31-35 | the mapping fails (throws) iff there is no current channel and some client has no channel; otherwise it has the length and order of the clients, and entry i is client i iff that client is in the current channel of the active connection, else undefined |
| Viewer.Render | src/Viewer.tsx:31-90 | one row per client; row i shows client i iff i is within the limit (limit 0 = none), the client is in the current channel of the active connection, and it is not hidden as non-talking; row i is an empty placeholder iff it is within the limit and the client does not match; the header is present iff showChannelName and a current channel, carrying its name; the connect hint shows iff there is no current channel |
| Viewer.ShownWithinLimit | src/Viewer.tsx:44-48 | with a positive limit, at most that many rows show a client, since the limit counts positions including placeholders |
| Viewer.DefaultsShowEveryMatch | src/Viewer.tsx:5-12 | with the parameter defaults (no channel name, no hiding, limit 0) every matching client is shown, every other client gets a placeholder, and no header appears |
| Viewer.NegativeLimitHidesAll | src/Viewer.tsx:44-48 | a negative limit renders nothing for every row |

## Left out

- Logging (`Logger.log`) has no effect on state, so it is not modelled.
- React's `setState` machinery is reduced to the appended `log`. Batching and re-rendering are not modelled.
- Object identity is not modelled. The handler stores the very objects it is given, so later outside mutation of them would show through. Entities here are immutable values. `indexOf(existing)` after `find` is modelled as the first key-match index, which is what it returns for the found object.
- The JSX, SVG, CSS class names (including `avatar--talk` and the alignment classes) and the `<img>` element are not modelled. Only which icon, row, header and hint is chosen is modelled.
- The per-row React keys are left out, including the `Math.random()` keys of placeholder rows.
- The `Client` record keeps only `id`, `channel`, `talkStatus` and, of the properties, `nickname`, the two mute flags, the two hardware flags and `myteamspeakAvatar`. The other client fields are read by none of the modelled code.
- Connection properties other than `id` are kept as an opaque map, and channel properties other than `name` are dropped. No modelled operation reads them.
- TalkStatus.ChooseIcon: the hardware flags are booleans, so the difference between `=== false` and a missing (`undefined`) flag is not modelled.
- Viewer.Render: the client limit is an integer. A `NaN` limit, which comes from an unparsable option, is not modelled.
- Viewer.Render: a thrown TypeError is modelled as `Failure(ChannelOfUndefined)`. React's error handling after the throw is not modelled.
- `js/app.js`, the WebSocket session and its reconnect loop, is I/O plumbing and is not part of this model.
- `src/Generator.tsx`, the option-URL generator, wraps browser URL, clipboard and timer APIs and is not part of this model.
- `src/App.tsx`, the routing and query-string parsing, is not part of this model.
- The `useTSRemoteApp` hook comes from an external library. Its outputs (`clients`, `currentChannel`, `activeConnectionId`) are parameters here.

## Findings

| source | as written | input that shows it | evidently intended | confidence | as-written member | corrected member |
|---|---|---|---|---|---|---|
| src/components/TalkStatus.tsx:17 | the avatar URL is everything after the first "2," up to the next "2," or the end of the property | a property shaped like the one documented at src/components/TalkStatus.tsx:14, e.g. `1,a;2,b;4,c`, yields `b;4,c` | the URL of the "2," entry alone, ending at the next ";" (`b`) | not executed | TalkStatus.AvatarUrl, TalkStatus.AvatarUrlRunsPastEntry, TalkStatus.AvatarUrlKeepsLaterEntries | TalkStatus.IntendedAvatarUrl |
| src/handlers/teamspeak/dataHandler.ts:170 | the channel cascade deletes every client whose channel id equals the removed channel's id, on any connection | two connections each with a channel 7 and a client in connection 2's channel 7; removing connection 1's channel 7 deletes that client | delete only the clients of the removed channel, matched on (channel id, connection id) like the lookup at src/handlers/teamspeak/dataHandler.ts:164 and as the comment at :169 says; channel ids are only unique within one server connection | not executed; medium | DataHandler.RemoveChannel, DataHandler.RemoveChannelCrossesConnections | DataHandler.IntendedRemoveChannel |

The call sequence model (`DataHandler.Apply`, `DataHandler.Run`) keeps the as-written `RemoveChannel`, because it describes the code. `IntendedRemoveChannel` carries its own proof that key uniqueness is preserved.
