# UniportKonnect chat core in Dafny

This project models the chat core of UniportKonnect and proves properties of that model. The core has five parts:

- **The relay server** (`server/server.js`). It keeps the `users` directory, an in-memory object that maps a user id to the socket id it joined on. Four socket handlers use it: `join`, `sendMessage`, `typing` and `disconnect`. In `presence.dfy` the directory is a sequence of entries kept in the order `Object.entries` visits them. The server is a class, `RelayServer`, whose methods update that sequence in place. It also has an outbox of emits and a log of store calls.
- **The chat page** (`src/_root/pages/Chat.tsx`). This covers:
  - the live `receiveMessage` and `typing` listeners;
  - `loadMessages`, `handleSendMessage` and `handleInputChange`;
  - search (`handleSearch`), with its cyclic cursor (`goToNextResult` and `goToPrevResult`).

  In `chat.dfy` the page's state is a class, `ChatPage`. The search and cursor arithmetic are functions beside it.
- **The client store calls** (`src/_root/pages/ChatService.tsx`), in `chat_service.dfy`:
  - `fetchMessages`: two directional queries, concatenated, then stably sorted by timestamp;
  - `sendMessage`;
  - `getChatPartner`.
- **The user directory filter** (`src/_root/pages/AllUsers.tsx`), in `all_users.dfy`.
- **The saved-posts list** (`src/_root/pages/Saved.tsx`), in `saved.dfy`.

`text.dfy` models the string operations the pages use: `toLowerCase`, `includes` and `trim`. `seqs.dfy` models `filter` and `reverse`. `wrappers.dfy` holds `Option`.

Behaviours of the code that the model proves:

- The last `join` wins, and a re-join keeps the id's place in the directory (`Presence.Put`, `Presence.PutInPlace`).
- A user who re-joined on a new socket survives the disconnect of the old one (`Presence.RejoinSurvivesStaleDisconnect`).
- When one socket joined under two ids, its disconnect removes only the id whose entry comes first in the directory and leaves the other behind, because the scan stops at the first match. For two new ids that is the first to join (`Presence.SharedSocketLeavesStaleEntry`). An id that already had an entry keeps its place when it re-joins, so it can be the one removed (`Presence.SharedSocketOrderByFirstEntry`).
- The server attempts to persist every message exactly once, whether or not the receiver is online, and emits live only to a present receiver (`Presence.RelayServer.SendMessage`).
- The page persists each message too, through the client store call. So every send asks the store twice: once from the page with `content` (`Chat.ChatPage.BeginSend`) and once from the server with `message` (`Presence.RelayServer.SendMessage`).
- History holds exactly the pair's documents, in timestamp order. Ties keep "sent before received" (`ChatService.HistoryOfPair`, `ChatService.SentBeforeReceivedOnTies`).
- Chatting with oneself lists every message twice (`ChatService.SelfChatDuplicates`).
- The sort is the one stable sort of its input (`ChatService.StableSortUnique`).
- Search is case-insensitive, and blank queries give no results (`Chat.SearchResults`, `Chat.SearchIgnoresQueryCase`).
- The cursor walks the results cyclically, and "next" and "previous" undo each other (`Chat.NextFullCircle`, `Chat.NextPrevInverse`).

Behaviours of the code that a reader might not expect, which the model keeps:

- The page does not de-duplicate live messages by id. A live message is appended as is, and loading the history replaces the whole list.
- The search results are rebuilt only when the query changes, not when the message list changes.
- A delivered message does not clear the typing indicator.
- `disconnect` deletes only the first entry whose socket matches.

## Model

| member | source | states |
|---|---|---|
| Seqs.Filter | src/_root/pages/AllUsers.tsx:19-22 | `filter` keeps an element exactly when the predicate holds, keeps the order (subsequence), and keeps each kept element's multiplicity |
| Seqs.ReverseAt | src/_root/pages/Saved.tsx:16 | `reverse` keeps the length and puts element `n-1-i` at position `i` |
| Seqs.ReverseLength | src/_root/pages/Saved.tsx:16 | `reverse` keeps the length |
| Text.LowerAt | src/_root/pages/Chat.tsx:208 | `toLowerCase` keeps the length, turns 'A'..'Z' into the letter 32 code points above, keeps every other character, and leaves no upper-case ASCII letter |
| Text.LowerAppend | src/_root/pages/Chat.tsx:208 | lowering a concatenation is the concatenation of the lowered parts |
| Text.LowerIdempotent | src/_root/pages/Chat.tsx:208 | lowering twice is lowering once |
| Text.Contains | src/_root/pages/Chat.tsx:208 | `includes` is true exactly when the needle occurs at some position |
| Text.ContainsEmpty | src/_root/pages/AllUsers.tsx:20-21 | every string includes the empty string |
| Text.TrimSpec | src/_root/pages/Chat.tsx:134-135 | `trim()` is empty exactly when the text is all white space; otherwise it is the slice of the text between white-space margins, and it starts and ends with a non-space |
| Presence.Lookup | server/server.js:50 | `users[id]` is a socket that id joined on, or absent when the id has no entry |
| Presence.Put | server/server.js:43-46 | after `users[id] = socket` the id maps to that socket, other ids are unaffected, a new id is added at the end, an existing id keeps the directory's size, and no id gets two entries |
| Presence.PutInPlace | server/server.js:43-46 | `users[id] = socket` for an id that already has an entry overwrites its first entry where it sits: every other entry and the order are unchanged |
| Presence.LookupAppend | server/server.js:50 | a lookup finds the earliest entry for the id |
| Presence.RemoveFirstAbsent | server/server.js:95-101 | disconnecting a socket nobody joined on leaves the directory unchanged |
| Presence.RemoveFirstAt | server/server.js:95-101 | the scan deletes exactly the first entry whose socket matches and keeps the rest in order |
| Presence.RemoveFirstLookup | server/server.js:92-102 | a disconnect removes at most one entry, keeps ids distinct, and changes only the lookup of a user whose socket was the closing one |
| Presence.RemoveFirstClearsSocket | server/server.js:92-102 | when every socket belongs to one user, no entry points at the closed socket afterwards |
| Presence.RejoinSurvivesStaleDisconnect | server/server.js:43-46 | join on `s1`, re-join on `s2`, then disconnect of `s1` leaves the user on `s2` |
| Presence.SharedSocketLeavesStaleEntry | server/server.js:95-101 | from any directory where two ids are new and the socket is unused, joining the socket as `a` then `b` and disconnecting it removes `a` and leaves `b` on the socket |
| Presence.SharedSocketOrderByFirstEntry | server/server.js:95-101 | in any directory with distinct ids where `b` has an entry, `a` has none and no entry is on the socket, joining the socket as `a` then `b` and disconnecting it removes `b` and leaves `a`: entry order, not join order, decides |
| Presence.RelayServer.constructor | server/server.js:36 | the server starts with an empty directory and nothing emitted or stored |
| Presence.RelayServer.Join | server/server.js:43-46 | `join` updates the directory as `Put` and changes nothing else |
| Presence.RelayServer.SendMessage | server/server.js:49-80 | one `receiveMessage` to the receiver's socket when present and none otherwise; exactly one store attempt either way, with the same instant as an ISO string; a store failure changes nothing else |
| Presence.RelayServer.Typing | server/server.js:83-89 | `typing` is forwarded only to a present receiver and is never stored |
| Presence.RelayServer.Disconnect | server/server.js:92-102 | the loop leaves the directory as `RemoveFirst` of the old one, ids still distinct |
| ChatService.InsertSorted | src/_root/pages/ChatService.tsx:50 | inserting into a sorted list keeps it sorted, one longer, with the expected head |
| ChatService.InsertMultiset | src/_root/pages/ChatService.tsx:50 | insertion adds exactly the one document |
| ChatService.InsertAtTime | src/_root/pages/ChatService.tsx:50 | insertion puts the document before the existing ones with its timestamp |
| ChatService.SortByTime | src/_root/pages/ChatService.tsx:49-50 | the sort is sorted by timestamp, a permutation, and stable: documents with equal timestamps keep their input order |
| ChatService.StableSortUnique | src/_root/pages/ChatService.tsx:50 | any two stable sorts of one input are equal, so the sort's output is determined |
| ChatService.SortedTiesDetermine | src/_root/pages/ChatService.tsx:50 | two sorted lists with the same documents at every timestamp, in the same order, are equal |
| ChatService.AtTimeAppend | src/_root/pages/ChatService.tsx:49 | the documents of a concatenation at one timestamp are those of the first part followed by those of the second |
| ChatService.ListDocuments | src/_root/pages/ChatService.tsx:29-46 | a query by sender and receiver returns exactly the matching stored documents, each as often as it is stored, in store order |
| ChatService.FetchMessages | src/_root/pages/ChatService.tsx:26-57 | a failed query gives `[]`; otherwise the stable sort of the sent documents followed by the received ones |
| ChatService.HistoryOfPair | src/_root/pages/ChatService.tsx:26-57 | the fetched history is sorted and holds a document exactly when it is stored and goes between the two users in either direction |
| ChatService.SentBeforeReceivedOnTies | src/_root/pages/ChatService.tsx:49-50 | among equal timestamps the sent documents come first, in store order, then the received ones |
| ChatService.SelfChatDuplicates | src/_root/pages/ChatService.tsx:26-50 | with oneself as partner, the history is twice as long as the stored self-messages |
| ChatService.SentMessageInHistory | src/_root/pages/ChatService.tsx:11-23 | a stored send appears in both participants' histories; a failed one leaves the store unchanged |
| ChatService.GetChatPartner | src/_root/pages/ChatService.tsx:61-73 | the profile is returned exactly when the store is reachable and has it; otherwise `null` |
| Chat.MatchesFrom | src/_root/pages/Chat.tsx:207-209 | the matching indices from `k` on, strictly increasing, each in range, and every matching index listed |
| Chat.SearchResults | src/_root/pages/Chat.tsx:199-212 | a blank query gives no results; otherwise the increasing list of exactly the indices whose content contains the query, ignoring case |
| Chat.SearchIgnoresQueryCase | src/_root/pages/Chat.tsx:208 | lowering the query does not change the results |
| Chat.MatchesSameHits | src/_root/pages/Chat.tsx:208 | two queries that lower to the same text find the same indices |
| Chat.SearchExample | src/_root/pages/Chat.tsx:199-212 | "hi", "yo", "oh hi" searched for "Hi" give indices 0 and 2 |
| Chat.ThreeMatches | src/_root/pages/Chat.tsx:207-209 | hit, miss, hit gives indices 0 and 2 |
| Chat.CursorExample | src/_root/pages/Chat.tsx:214-226 | with two results "next" goes 0 to 1 and wraps to 0; "previous" from 0 wraps to 1 |
| Chat.NextResult | src/_root/pages/Chat.tsx:216 | "next" stays in range and moves to the following result, wrapping from the last to the first |
| Chat.PrevResult | src/_root/pages/Chat.tsx:223 | "previous" stays in range and moves to the preceding result, wrapping from the first to the last |
| Chat.NextPrevInverse | src/_root/pages/Chat.tsx:214-226 | "next" then "previous", or the other way round, restores the cursor |
| Chat.NextWalk | src/_root/pages/Chat.tsx:214-219 | `k <= n` presses of "next" move the cursor `k` places, wrapping at most once |
| Chat.NextFullCircle | src/_root/pages/Chat.tsx:214-219 | `n` presses of "next" return to the starting result |
| Chat.ChatPage.constructor | src/_root/pages/Chat.tsx:16-27 | the page starts with no messages, empty input and query, no results, the indicator off and nothing emitted |
| Chat.ChatPage.CurrentUserLoaded | src/_root/pages/Chat.tsx:49-51 | once the user id is known, the socket joins under it when it is non-empty |
| Chat.ChatPage.ReceiveMessage | src/_root/pages/Chat.tsx:54-62 | a live message appends exactly one entry and changes nothing else |
| Chat.ChatPage.TypingReceived | src/_root/pages/Chat.tsx:65-73 | a typing event from someone else turns the indicator on and resets the one timer to 3000 ms from now; the user's own events are ignored |
| Chat.ChatPage.Tick | src/_root/pages/Chat.tsx:69-71 | a due timer turns the indicator off; otherwise nothing changes |
| Chat.ChatPage.LoadMessages | src/_root/pages/Chat.tsx:111-120 | with both ids known, the fetched history replaces the whole list; otherwise the list stays |
| Chat.ChatPage.BeginSend | src/_root/pages/Chat.tsx:132-147 | a send starts exactly when the input is not blank and both ids are known; it emits the trimmed text and asks the store to persist it |
| Chat.ChatPage.FinishSend | src/_root/pages/Chat.tsx:150-160 | after the store call one local entry is appended and the input is cleared |
| Chat.ChatPage.HandleSendMessage | src/_root/pages/Chat.tsx:132-166 | a send emits, persists and appends the trimmed text once and clears the input; otherwise nothing changes |
| Chat.ChatPage.HandleInputChange | src/_root/pages/Chat.tsx:168-187 | the input is stored; with both ids known one typing event is emitted and the timer reset; the local indicator is never turned on |
| Chat.ChatPage.HandleSearch | src/_root/pages/Chat.tsx:199-212 | the results become `SearchResults` of the current list and the cursor returns to the first result |
| Chat.ChatPage.GoToNextResult | src/_root/pages/Chat.tsx:214-219 | without results nothing happens; otherwise the cursor moves as `NextResult` and the message scrolled to is the result under it |
| Chat.ChatPage.GoToPrevResult | src/_root/pages/Chat.tsx:221-226 | the same, moving as `PrevResult` |
| AllUsers.FilteredUsers | src/_root/pages/AllUsers.tsx:19-22 | a missing list gives `[]`; otherwise a user is kept, in order, exactly when the username or name contains the query, ignoring case |
| AllUsers.NamelessNeverKept | src/_root/pages/AllUsers.tsx:20-21 | a user with neither username nor name is never listed |
| AllUsers.EmptyQueryKeepsNamed | src/_root/pages/AllUsers.tsx:20-21 | the empty query lists every user that has a username or a name |
| AllUsers.FilteredKeepsMultiplicity | src/_root/pages/AllUsers.tsx:19-22 | a listed user appears as often as in the input |
| Saved.SavedPost | src/_root/pages/Saved.tsx:10-15 | a saved post keeps the post's fields and gets `creator` replaced by the current user's image |
| Saved.SavePostsLength | src/_root/pages/Saved.tsx:9-16 | one entry per save record, so an empty `save` list gives `[]` |
| Saved.SavePostsSpec | src/_root/pages/Saved.tsx:9-16 | entry `i` is the post of save record `n-1-i`: newest first |
| Saved.SavePostsMissing | src/_root/pages/Saved.tsx:9 | no user or no `save` list gives `[]` |

## Left out

- The socket.io transport, CORS, the Express health route and the server's logging are left out. Emits are appended to logs instead.
- The Appwrite SDK is an abstract store. `listDocuments` is a filter over a sequence; its pagination and default page size are not modelled. Whether a call succeeds is a parameter.
- `new Date()` and `Date.now()` are parameters. `toISOString` is an injective wrapper around the instant. The page parses stored timestamps into milliseconds, which is taken as given.
- `setTimeout` and `clearTimeout` become a single deadline and a `Tick(now)` step. Real time and the event loop are not modelled.
- `Text.Lower`: `toLowerCase` folds case only for ASCII letters; Unicode case mapping is not modelled.
- `Presence.Lookup`: the directory keeps insertion order. JavaScript's ordering of integer-like keys first is not modelled, and neither are keys inherited from `Object.prototype`.
- The concurrency between the history fetch and live events is represented only by the order of the separate method calls. `BeginSend` and `FinishSend` split the send at its `await`, so other events can be placed between them.
- The page's rendering, scrolling, overlays, message formatting and chat-partner display are left out. So are the effect cleanups and the socket's disconnect on unmount.
- `Chat.ChatPage.CurrentUserLoaded`: the effect creates a fresh socket each time it runs. The model keeps one emit log and records the `join` only.
- The friend-request service, the remaining pages and the React Query hooks are left out. They are not part of this model.
