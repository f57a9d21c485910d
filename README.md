# Conversation session engine of a chat shell, in Dafny

This project models the stateful core of a small client-side chat site: the
dialog in which a user talks to a (canned) assistant, the sessions it keeps in
the browser's `localStorage`, the "Recent Chats" list beside the page, and the
page that opens and closes the dialog.

- `optional.dfy` (`Optional`): `Option`, standing for JavaScript's `null`.
- `text.dfy` (`Text`): the string semantics the engine relies on:
  `trim` and "blank" text, `split` on one character, decimal strings and
  `Number` on them.
- `session.dfy` (`Session`): `Message` (id, role, content, timestamp), the
  stored session `Record` (`messages` plus an optional `createdAt` and an
  optional `updatedAt`), and `FindIndex`, i.e. `findIndex`/`find`.
- `browser.dfy` (`Browser`): `localStorage` as a class whose fields are the keys,
  in the order `key(i)` enumerates them, and a map from key to record.
  A `null` store stands for an environment without `window`.
- `utils.dfy` (`Utils`, app/lib/utils.ts): session ids
  `session-<ms>-<suffix>`, best-effort save and load, and `getAllSessions`.
  `getAllSessions` scans every key, keeps the `session-` keys, builds
  `(id, lastMessage, timestamp)` entries and sorts them newest first.
- `modal.dfy` (`Modal`, app/components/response-modal.tsx): the class
  `ResponseModal`, whose fields are the component's state. It holds the
  message list, the current session id, the typing/generating flags, the
  pending reply timer, the edit id and the input text. Each handler is a method.
  The reply timer is a slot holding the prompt and the session id its closure
  captured. Its firing is the event `CompleteGeneration`.
- `sidebar.dfy` (`SidebarPanel`, app/components/sidebar.tsx): the recent-chats
  list (refresh, delete, click), the label truncation, and the
  `sidebarActions` slot.
- `page.tsx`'s model is `page.dfy` (`HomePage`): dialog visibility, seed message and
  session id, registering and clearing the refresh callback, and invoking it on close.
- `scenarios.dfy` (`Scenarios`): two whole conversations driven through the
  handlers and proved from their contracts.

Clock readings (`Date.now()`), random suffixes and message ids, and the
assistant's reply text are parameters of the operations that use them.

The key rule is the edit path. Saving an edit of the message at position `p`:

- replaces its content;
- cuts the list at the first `assistant` message after `p`, or keeps all of it
  when there is none;
- stores the result and schedules a new reply to the edited text.

`EditTruncate` states this, and `EditTruncateDetermined` proves that these
properties leave only one possible result.

Behaviour of the code that is easy to misread:

- A save replaces the stored record; it does not merge. A `{messages, updatedAt}`
  write therefore drops `createdAt`.
- Loading does not guard `JSON.parse`, so nothing turns corrupt data into "absent".
  Corrupt data is not modelled at all.
- `handleEditMessage` accepts a message of any role. Only the user messages
  carry an edit button.
- The open effect and the append path of `handleSendMessage` accept any text,
  blank or not, and a send while a reply is pending. Only `handleSaveEdit`
  abandons a whitespace-only text.
- The `disabled` prop that the dialog passes to its chat input is never true,
  because `isTyping` and `isGenerating` are always set together
  (`InputDisabled`). The input widget's own short post-submit disabling and
  its stop button are not modelled.
- A reply is stored under the session id that its timer's closure captured. For
  the reply to the seed message of a new conversation that id is still the
  dialog's initial `''`, so this first reply is shown but not stored
  (`Scenarios.NewConversation`).
- The refresh callback invoked when the dialog closes dispatches a DOM event
  that no listener handles. The model records the invocation only.
- There is no generation failure path; the canned generator cannot fail.

## Model

| member | source | states |
|---|---|---|
| `Text.TrimStart` | app/components/response-modal.tsx:187 | the leading-whitespace trim keeps the suffix starting at the first non-whitespace character; everything dropped is whitespace |
| `Text.TrimEnd` | app/components/response-modal.tsx:187 | the trailing-whitespace trim keeps the prefix ending at the last non-whitespace character; everything dropped is whitespace |
| `Text.BlankIffAllWhitespace` | app/components/response-modal.tsx:187 | `!text.trim()` holds exactly when every character of the text is JavaScript whitespace |
| `Text.Split` | app/lib/utils.ts:39 | `split('-')` yields at least one field, at least two when the text contains `-`, no field contains `-`, and a text without `-` comes out as its only field |
| `Text.SplitAtFirst` | app/lib/utils.ts:39 | splitting `a-b` where `a` has no `-` gives `a` followed by the fields of `b` |
| `Text.DecimalString` | app/lib/utils.ts:10 | the decimal form of the clock reading is a non-empty run of digits with no leading zero |
| `Text.DecimalRoundTrip` | app/lib/utils.ts:10 | `Number` of the decimal form of `n` is `n` |
| `Session.FindIndex` | app/components/response-modal.tsx:194 | `findIndex` returns the first matching position at or after the start, or -1 (`None`) exactly when none matches |
| `Browser.LocalStorage.GetItem` | app/lib/utils.ts:22 | `getItem` returns the stored record, or null exactly when the key is absent |
| `Browser.LocalStorage.SetItem` | app/lib/utils.ts:16 | `setItem` maps the key to the value, keeps every other entry, and enumerates a new key last |
| `Browser.LocalStorage.RemoveItem` | app/components/sidebar.tsx:71 | `removeItem` deletes exactly that key from the records and from the enumeration; an absent key changes nothing |
| `Utils.GenerateSessionId` | app/lib/utils.ts:9-11 | every generated id starts with `session-` |
| `Utils.SessionIdTimestamp` | app/lib/utils.ts:39 | `Number(id.split('-')[1])` of an id generated at clock reading `now` is `now`, whatever the suffix |
| `Utils.SaveToLocalStorage` | app/lib/utils.ts:14-18 | with a window, a later get of the key returns exactly the saved record (replaced, not merged), every other key is unchanged, and a new key is enumerated last; without one, nothing changes |
| `Utils.GetFromLocalStorage` | app/lib/utils.ts:20-26 | returns the stored record, null for an absent key, and null whenever there is no window |
| `Utils.CollectMembers` | app/lib/utils.ts:31-43 | the scan pushes an entry for every enumerated `session-` key with a record, and every entry it pushes has its key as id, the content of the record's last message (or `''`) and the key's second `-` field |
| `Utils.CollectDistinctIds` | app/lib/utils.ts:31-43 | over distinct keys the scan pushes at most one entry per key |
| `Utils.Insert` | app/lib/utils.ts:44 | inserting into a list sorted newest first keeps it sorted and adds exactly that entry |
| `Utils.SortBy` | app/lib/utils.ts:44 | the sort's result is non-increasing by the sort key and is a permutation of its input |
| `Utils.SortByTimestamp` | app/lib/utils.ts:44 | the sessions come out non-increasing by `Number(timestamp)`, as a permutation of the collected entries |
| `Utils.SessionIndexMembers` | app/lib/utils.ts:28-47 | the sorted index contains exactly the entries of the stored session keys, each built from its own key and record; keys without the prefix never appear |
| `Utils.SessionIndexOnePerSession` | app/lib/utils.ts:28-47 | the sorted index has one entry per stored session: no two entries share an id |
| `Utils.RankOfGenerated` | app/lib/utils.ts:39-44 | the sort key of an entry whose id was generated at clock reading `now` is `now` |
| `Utils.NewerSessionListedFirst` | app/lib/utils.ts:44 | of two sessions whose ids were generated at clock readings t1 < t2, the later one is listed first |
| `Utils.GetAllSessions` | app/lib/utils.ts:28-47 | the index loop over the stored keys followed by the sort returns exactly the sorted index; `[]` without a window |
| `Modal.EditTruncate` | app/components/response-modal.tsx:201-216 | after an edit at `p`: p keeps its id, role and timestamp and takes the new text, every other kept message is unchanged, the list is no longer than before, no message after `p` is an assistant message, and the cut falls on an assistant message |
| `Modal.EditTruncateDetermined` | app/components/response-modal.tsx:208-216 | any list with those properties is the edit result: the cut is at the first assistant message after `p`, or nowhere when there is none |
| `Modal.EditAbandonedWhen` | app/components/response-modal.tsx:187-199 | a save of the edit is abandoned exactly when there is no edit id, the text is whitespace only, or no message has the edit id |
| `Modal.ResponseModal.constructor` | app/components/response-modal.tsx:27-33 | the dialog starts with no messages, an empty session id, no pending reply, no edit and an empty input |
| `Modal.ResponseModal.InputDisabled` | app/components/response-modal.tsx:346 | `isTyping && !isGenerating` is always false, since both flags are set together with the pending timer |
| `Modal.ResponseModal.SimulateResponse` | app/components/response-modal.tsx:91-126 | both flags are set and the pending slot holds exactly the new reply timer (the previous one is cleared); messages are untouched |
| `Modal.ResponseModal.Open` | app/components/response-modal.tsx:37-75 | a truthy stored session id loads that session's messages verbatim and sets the id, with no write and no generation; otherwise a non-empty seed creates session `GenerateSessionId(now, suffix)` with one user message, stored with `createdAt`, and schedules a reply under the previous session id; an empty seed or a closed dialog changes nothing |
| `Modal.ResponseModal.CompleteGeneration` | app/components/response-modal.tsx:96-123 | a pending timer appends exactly one assistant message at the end, stores the list under the captured session id only when that id is non-empty, and clears the flags; without a pending timer nothing happens |
| `Modal.ResponseModal.StopGeneration` | app/components/response-modal.tsx:128-135 | clears the pending timer and both flags; messages, edit state and storage are unchanged |
| `Modal.ResponseModal.HandleSendMessage` | app/components/response-modal.tsx:150-176 | while an edit is active it behaves as handleSaveEdit; otherwise it appends exactly one user message at the end, stores `messages ++ [new]` only when the session id is non-empty, and schedules a reply to the text |
| `Modal.ResponseModal.HandleEditMessage` | app/components/response-modal.tsx:178-184 | when some message has the id, the edit id becomes it and the input holds the first such message's content; otherwise nothing changes |
| `Modal.ResponseModal.HandleSaveEdit` | app/components/response-modal.tsx:186-235 | always clears the edit id and input; an abandoned edit leaves messages, timer and storage unchanged; a successful one sets messages to `EditTruncate`, stores them when the session id is non-empty, and schedules a reply to the edited text |
| `Modal.ResponseModal.HandleCancelEdit` | app/components/response-modal.tsx:237-240 | clears the edit id and input; messages and generation are unchanged |
| `Modal.ResponseModal.HandleInputChange` | app/components/response-modal.tsx:242-244 | the input text becomes the given value and nothing else changes |
| `SidebarPanel.SidebarActions.constructor` | app/components/sidebar.tsx:165-167 | the refresh slot starts out null |
| `SidebarPanel.Label` | app/components/sidebar.tsx:142 | the label is the last message itself when at most 25 characters, otherwise its first 25 characters followed by `...`; never more than 28 characters |
| `SidebarPanel.WithoutId` | app/components/sidebar.tsx:74 | the filtered list holds exactly the entries whose id differs, and is no longer |
| `SidebarPanel.WithoutIdSplits` | app/components/sidebar.tsx:74 | filtering a concatenation filters each part in place, so the kept entries stay in order |
| `SidebarPanel.WithoutAbsentId` | app/components/sidebar.tsx:74 | filtering by an id no entry has leaves the list unchanged |
| `SidebarPanel.Sidebar.constructor` | app/components/sidebar.tsx:35-47 | on mount the recent list is the session index of the store |
| `SidebarPanel.Sidebar.RefreshRecentChats` | app/components/sidebar.tsx:39-42 | the recent list becomes exactly the result of getAllSessions |
| `SidebarPanel.Sidebar.HandleChatClick` | app/components/sidebar.tsx:53-64 | `onChatSelect(id, c)` is called exactly when a callback was supplied and the stored session has a user message, with `c` the first user message's content; otherwise no call |
| `SidebarPanel.Sidebar.HandleDeleteChat` | app/components/sidebar.tsx:66-76 | with a window, the key leaves storage and the list loses exactly the entries with that id; without one, nothing changes |
| `HomePage.Home.constructor` | app/page.tsx:10-13 | the page starts with the dialog hidden, an empty seed and no session id |
| `HomePage.Home.Mount` | app/page.tsx:27-29 | mounting overwrites the single slot with this mounting's refresh callback |
| `HomePage.Home.Unmount` | app/page.tsx:31-36 | unmounting resets the slot to null |
| `HomePage.Home.HandleSendMessage` | app/page.tsx:39-43 | the seed becomes the text, the session id null (a new conversation), and the dialog is shown |
| `HomePage.Home.HandleChatSelect` | app/page.tsx:45-49 | the session id and the seed become the given values and the dialog is shown |
| `HomePage.Home.HandleCloseModal` | app/page.tsx:51-57 | the dialog is hidden and the registered refresh callback is invoked exactly when the slot holds one |
| `HomePage.Home.RenderedModal` | app/page.tsx:103-110 | the dialog is rendered exactly while shown, open, with the current seed and session id |
| `Scenarios.NewConversation` | app/components/response-modal.tsx:50-123 | from the page's send to the first reply: the dialog shows the seed and the reply, while the store holds the new session with the seed alone and its `createdAt` |
| `Scenarios.Greet` | app/components/response-modal.tsx:37-123 | a fresh dialog opened on "Hello" and answered shows exactly the question and the reply, with no edit and no pending reply |
| `Scenarios.ReviseToHiThere` | app/components/response-modal.tsx:150-235 | editing the answered question through the send handler leaves the edited question alone and a reply pending |
| `Scenarios.EditFirstQuestion` | app/components/response-modal.tsx:186-235 | "Hello", a reply, then an edit to "Hi there" and a new reply leave exactly the edited question and the new reply |

## Left out

- Rendering, animation, dialogs, buttons, styling and the `cn` class-name helper: presentation and foreign libraries.
- The neural background animation, the layout file and the chat input widget. The input's submit guard (no blank text) is not modelled, and the handlers accept any text, as they do in the code.
- `Date.now()` and `Math.random()`: clock readings, id suffixes and message ids are parameters, and nothing assumes they are unique. One clock reading serves each handler, though the code reads the clock several times.
- The canned reply generator: the reply text is a parameter of `CompleteGeneration`.
- `setTimeout`, `clearTimeout` and the effect cleanups: one optional pending-timer slot that a new timer overwrites and that stop clears. Unmounting the dialog, which clears the timer, is not modelled as a separate event.
- JSON serialisation: the store maps keys directly to session records. Values that are not session records (`null`, objects without `messages`, data from other applications) are not modelled. The truthiness checks at app/lib/utils.ts:35, app/components/response-modal.tsx:42 and app/components/sidebar.tsx:56 therefore amount to "a record is stored". The throw of `JSON.parse` on corrupt data is not modelled either.
- Utils.Rank: `Number` is modelled for digit strings and the empty string only. Other numeric spellings (whitespace, signs, exponents, hex, fractions) count as `NaN`, and values are compared exactly rather than as doubles.
- Utils.SortByTimestamp: entries whose timestamp is `NaN` are placed last. With such entries the code's comparator is inconsistent and JavaScript leaves the order implementation-defined. Stability of the sort is implemented but not stated.
- Browser.LocalStorage: keys are enumerated in insertion order; real browsers do not promise an order.
- SidebarPanel.Label: lengths count Unicode characters, not UTF-16 code units.
- The DOM event dispatched by the page's refresh callback: the model records that the callback ran and nothing else.
- `e.stopPropagation()` in handleDeleteChat and the navigation items of the sidebar: presentation.
