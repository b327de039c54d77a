# Messaging inbox: a Dafny model

The modelled system is a small web app where a student writes e-mail-like
messages to a fixed set of automated agents: a vendor, a customs broker, a
warehouse, a port, an account manager, a retail bot and an influencer. Each
message goes to the agent's webhook, and the agent's reply comes back into a
per-agent inbox of threads. This project models the bookkeeping under the
user interface and proves properties of it:

- **Conversation store** of the React client (`App.tsx`) and of the older
  single-file client (`script.js`). This is a map from agent to a map from
  thread id to thread. A thread is a subject, a list of messages and an
  unread count. The model covers:
  - creating a thread on send;
  - appending the agent's reply;
  - replying in a thread;
  - opening a thread, which clears its unread count;
  - the choice of reply text;
  - downloading all threads as one text file;
  - for the old client, the inbox listing.

  Every asynchronous handler is split at its `await`. The step before the
  webhook call returns a pending record of what the call carries. The step
  after it takes the webhook's outcome as an input: no webhook, network
  error, HTTP error, a body that is not JSON, or JSON with an optional
  `reply`. A JSON `null` body makes reading `data.reply` throw into the
  handler's `catch`, so it is given as a network error.
  - `App.tsx` rebuilds its state with spreads, so it is modelled as pure
    state-to-state functions over an `AppState` value.
  - `script.js` mutates module-level variables, so it is a class
    `LegacyInbox` whose methods update its fields.
- **Composer** (`ComposeView.tsx`). A class `Composer` holds:
  - the undo/redo history of the editor's HTML, capped at 50 entries, with
    its index;
  - the saved-drafts list, newest first and capped at 25;
  - the send check;
  - `localStorage`, as a string map.
- **Inbox view** (`InboxView.tsx`), as pure functions:
  - sorting by the time of the last message, newest first;
  - splitting into unread and read threads;
  - the all, unopened and opened filters;
  - the 120-character preview.
- **Sidebar** (`Sidebar.tsx`): the trimmed, case-insensitive agent search,
  and the active and unread-badge flags.
- **Export helpers** (`conversationExport.ts`):
  - `escapeHtml` and its inverse;
  - the file-name normaliser and the choice of format;
  - the message header;
  - the line layout of the text export, built by nested loops;
  - the sections of the Word export.
- **Authentication handlers** (`authController.ts`): `signup`, `login` and
  `googleLogin` over a user table keyed by e-mail address.
  - Password hashing, hash comparison, token signing and Google token
    verification are function parameters.
  - Whether the database answers is a boolean parameter, `dbUp`.

Timestamps are integers: milliseconds for ids and message dates. A thread id
is `"thread_"` followed by the timestamp. `toLocaleString` is an opaque
`int -> string` (or `string -> string`) parameter. The enumeration order of
an object's keys (`Object.keys`) is an explicit `keys` sequence, tied to its
map by `Conversations.EnumeratesKeys`. Strings are sequences of characters.
White space and letter case are ASCII.

Files:
- `util.dfy`: option helpers, filtering, subsequences, numbered
  concatenation and decimal numerals with their parse round trip.
- `text.dfy`: trimming, lower case, substring search, replace-all.
- `sorting.dfy`: the stable descending sort used for the inbox.
- `conversations.dfy`: agents, messages, threads and the store, shared by
  both clients.
- `app.dfy`, `legacy.dfy`, `compose.dfy`, `inbox.dfy`, `sidebar.dfy`,
  `export.dfy` and `auth.dfy`: one module per source file.

## Model

| member | source | states |
|---|---|---|
| Conversations.InitialStore | client/src/App.tsx:43-47 | Every configured agent has a thread map, and every one of them is empty. |
| Conversations.UserMessage | client/src/App.tsx:138-145 | A user message is marked as the user's, carries the body, comes from the student's address and goes to the agent's address. |
| Conversations.AgentMessage | client/src/App.tsx:156-163 | An agent message is not the user's, carries the body, comes from the agent's address and goes to the student's address. |
| Conversations.ThreadIdInjective | original_files/script.js:163-164 | Thread ids made at two different times differ. |
| Conversations.WithReply | client/src/App.tsx:169-170 | The reply is appended after every earlier message, the subject is kept, and the unread count (missing read as 0) grows by exactly one. |
| Conversations.PutChangesOnly | client/src/App.tsx:147-150 | Storing a thread changes that thread of that agent and nothing else in the store. |
| Conversations.EnumeratedCount | client/src/App.tsx:240-248 | A duplicate-free enumeration of a map's keys has as many entries as the map. |
| App.Initial | client/src/App.tsx:27-47 | On load: the first agent, the inbox view, no selected thread, and an empty thread map for every agent. |
| App.SelectAgent | client/src/App.tsx:96-100 | Picking an agent makes it active, shows its inbox and clears the selected thread; the store is unchanged. |
| App.OpenThread | client/src/App.tsx:79-90 | Opening a thread selects it and shows it. If the active agent has the thread, its unread count becomes 0, its subject and messages are kept and every other thread and agent is unchanged. For an unknown id the store is unchanged. |
| App.ReplyText | client/src/App.tsx:102-133 | The reply text is never empty. It is the webhook's reply when one was given; "No response" when the webhook answered without one or with a body that is not JSON; "Auto-reply from " and the agent's name when there is no webhook or the call failed. |
| App.CreateThreadStart | client/src/App.tsx:135-155 | Under the agent active at the call, a new thread holds the subject, exactly one message (the user's) and unread 0. Nothing else changes, the inbox is shown, and the pending call records that agent and thread. |
| App.CreateThreadFinish | client/src/App.tsx:155-172 | The reply goes to the thread captured when the message was sent, recreated empty when it has gone. It gains exactly one agent message carrying the reply text, and unread grows by one. Nothing else changes. |
| App.SendReplyStart | client/src/App.tsx:175-195 | Empty text changes nothing and makes no call. Otherwise only the user's message is appended to the thread, subject and unread are kept, and the call carries "Re: " followed by the subject. |
| App.SendReplyFinish | client/src/App.tsx:196-213 | The agent's reply is appended to the captured thread and unread grows by one. Nothing else changes. |
| App.CreateThenReply | client/src/App.tsx:135-172 | Sending and then receiving the answer leaves a thread with exactly two messages, the user's then the agent's reply, and one unread. |
| App.ReplyFollowsCapturedAgent | client/src/App.tsx:137 | When the user switches agents while the call is in flight, the reply still lands in the thread of the agent that was active at send time. The newly active agent's threads are untouched. |
| App.ReplyExchange | client/src/App.tsx:175-213 | A non-empty reply and its answer append exactly the user's message and then the agent's to the same thread, and raise unread by one. Every other thread keeps its contents. |
| App.MessageNumbering | client/src/App.tsx:257-264 | Message i of a thread (from 0) is printed as "Message i+1", after the messages before it and before those after it. |
| App.ThreadSectionOf | client/src/App.tsx:251-256 | A thread's part of the download is its banner and then its messages numbered from 1. |
| App.ThreadNumbering | client/src/App.tsx:251-265 | Thread i in key order is printed under "THREAD i+1", with its own messages numbered from 1, after the threads before it and before those after it. |
| App.HeaderCountsThreads | client/src/App.tsx:246-249 | The "Total Threads" line counts exactly the agent's threads. |
| App.AppendNumbered | client/src/App.tsx:257-264 | The inner `forEach` appends every item, rendered with its running number, in order. |
| App.AppendSections | client/src/App.tsx:251-265 | The nested `forEach` loops append, for each thread, its banner and then its messages numbered from 1. |
| App.DownloadAllConversations | client/src/App.tsx:238-267 | No file exactly when the active agent has no threads. Otherwise the file holds the header and every thread in key order, and its name is "all_conversations_", the agent's name, "_", the time and ".txt". |
| Legacy.PutKeepsValid | original_files/script.js:168-183 | Storing a thread that has a message and a non-negative unread count keeps every thread of the store that way. |
| Legacy.ReplyBody | original_files/script.js:243 | The reply body is the webhook's `reply` when it is non-empty, and exactly "No response received" otherwise; it is never empty. |
| Legacy.LegacyInbox.constructor | original_files/script.js:40-49 | On load: the first agent, the inbox, no opened threads, and an empty thread map for every agent. |
| Legacy.LegacyInbox.SelectAgent | original_files/script.js:126-136 | Clicking an agent makes it current and shows the inbox; conversations and opened threads are unchanged. |
| Legacy.LegacyInbox.Send | original_files/script.js:150-194 | A subject or body that is blank after trimming changes nothing and sends nothing. Otherwise, under the agent current at send time, a new thread holds the trimmed subject, exactly one user message with the trimmed body, and unread 0. The inbox is shown. |
| Legacy.LegacyInbox.CompleteSend | original_files/script.js:198-275 | A network or HTTP failure appends nothing, and neither does a JSON `null` body, which is given as a network error. Any other answer appends one agent message to the captured thread (recreated when gone) and raises unread by one; the body is the `reply`, or "No response received" when there is none or the body is not JSON. |
| Legacy.LegacyInbox.ShowThreadView | original_files/script.js:296-313 | The id joins the opened threads and the thread view is shown. If the current agent has the thread, its unread count becomes 0; otherwise the store is unchanged. |
| Legacy.LegacyInbox.SendReply | original_files/script.js:425-453 | Blank text, or a thread the current agent lacks, changes nothing. Otherwise the user's trimmed message is appended at once, and the call carries "Re: " followed by the subject. |
| Legacy.LegacyInbox.CompleteReply | original_files/script.js:455-505 | Only a JSON answer appends the agent's message, with the sender being the agent current at that moment, and raises unread by one. A failed call or a body that is not JSON leaves the user's message as the thread's last. |
| Legacy.FirstUserMessage | original_files/script.js:351-352 | The result is the earliest message the user sent, or none exactly when the thread has no user message. |
| Legacy.Row | original_files/script.js:350-368 | A listed row shows the thread's subject and its unread count, with a badge exactly when that count is positive. The preview is the first user message's body cut to 100 characters followed by "...", so at most 103 characters. The date is that message's date. |
| Legacy.RenderInbox | original_files/script.js:323-374 | The empty state exactly when the agent has no threads. Otherwise one row per listed thread, in listing order. |
| Legacy.InboxNewestFirst | original_files/script.js:338-345 | The listing is ordered newest last message first. |
| Legacy.InboxListsUserThreads | original_files/script.js:348-373 | Every thread holding a user message is listed exactly once, and no other thread is listed. |
| Legacy.AgentOnlyThreadHidden | original_files/script.js:351-352 | A thread without a user message is never listed. |
| Compose.RecordedSpec | client/src/components/ComposeView.tsx:231-235 | After recording, the history has min(index+2, 50) entries. It ends with the new state, preceded by the most recent entries up to the old index. |
| Compose.UndoRedo | client/src/components/ComposeView.tsx:249-259 | Undo and redo keep the index inside the history. Undo at 0 and redo at the last entry stay put. An undo that moves is reversed by a redo, and a redo that moves by an undo. |
| Compose.DraftSubject | client/src/components/ComposeView.tsx:275-280 | The draft subject is the trimmed subject, or "Untitled draft" when that is blank. It is never empty, so the empty-draft rejection cannot fire. |
| Compose.Prepend | client/src/components/ComposeView.tsx:289 | The new draft comes first, followed by the old drafts in order, keeping at most 25. |
| Compose.PrependNewestFirst | client/src/components/ComposeView.tsx:282-290 | Saving a draft no older than the newest keeps the list newest first. |
| Compose.FilteredDrafts | client/src/components/ComposeView.tsx:129-132 | With no agent, every draft is shown. Otherwise exactly the drafts saved for that agent are shown, each as many times as it is saved, in their order. |
| Compose.PersistedDraft | client/src/components/ComposeView.tsx:146-155 | Without an agent, or before the agent's draft is loaded, storage and the draft flag are unchanged. Otherwise the subject and the body are stored under "draft_" + agent, and the flag says whether either is non-blank after trimming. |
| Compose.PersistKeepsOtherKeys | client/src/components/ComposeView.tsx:150 | Writing the automatic draft changes no key but the agent's own; in particular the "saved_drafts" list is untouched. |
| Compose.PersistIdempotent | client/src/components/ComposeView.tsx:146-155 | Writing the same automatic draft twice leaves what writing it once does. |
| Compose.Composer.constructor | client/src/components/ComposeView.tsx:56-68 | On mount: the subject prop or "", an empty editor, the history [""] at index 0, and the drafts menu closed. The automatic draft counts as loaded exactly when there is an agent. |
| Compose.Composer.ResetHistory | client/src/components/ComposeView.tsx:219-222 | The history becomes exactly the given state, at index 0, and the bound invariant holds. Nothing else changes. |
| Compose.Composer.RecordHistory | client/src/components/ComposeView.tsx:224-236 | When the editor equals the entry at the index, nothing changes. Otherwise the history is the recorded one and the index points at its last entry. Either way 0 <= index < \|history\| <= 50 is kept. |
| Compose.Composer.PersistDraft | client/src/components/ComposeView.tsx:146-155 | Storage and the draft flag become `PersistedDraft` of their old values, the subject and the editor's text. Nothing else changes. |
| Compose.Composer.Undo | client/src/components/ComposeView.tsx:238-253 | At index 0 nothing changes. Otherwise the index moves back one and the editor shows that entry. The toolbar refresh then writes the automatic draft, as `PersistedDraft` says. The history and the invariant are kept. |
| Compose.Composer.Redo | client/src/components/ComposeView.tsx:238-259 | At the last index nothing changes. Otherwise the index moves forward one and the editor shows that entry. The toolbar refresh then writes the automatic draft, as `PersistedDraft` says. The history and the invariant are kept. |
| Compose.Composer.ManualSave | client/src/components/ComposeView.tsx:272-293 | A new draft goes first in the list, capped at 25. It has the draft subject and the editor's HTML, or the trimmed text when the HTML is empty. The list is written under "saved_drafts" and the drafts menu closes. |
| Compose.Composer.Send | client/src/components/ComposeView.tsx:316-333 | A blank trimmed subject or body sends nothing and changes nothing. Otherwise the trimmed values are handed on, and the form is cleared with the history reset to [""]. When there is an agent, that agent's stored draft is removed. |
| Sorting.SortPermutes | client/src/components/InboxView.tsx:47-53 | Sorting keeps exactly the same thread ids, each as often as before. |
| Sorting.SortSorted | client/src/components/InboxView.tsx:47-53 | The sorted ids are in descending order of last-message time. |
| Sorting.FilterSorted | client/src/components/InboxView.tsx:55-56 | Taking some ids of a sorted list keeps it sorted. |
| Inbox.PreviewSource | client/src/components/InboxView.tsx:96-98 | The preview text is "You: " or "Agent: " followed by the last body. It is the subject when there is no last message or its body is empty. |
| Inbox.Preview | client/src/components/InboxView.tsx:107-108 | Text of at most 120 characters is shown whole. Longer text is cut to its first 120 characters followed by "...". The result never exceeds 123 characters. |
| Inbox.RowOf | client/src/components/InboxView.tsx:95-110 | A row shows the subject and the preview. It has a badge with the count exactly when unread is non-zero. The date is "No messages yet" for an empty thread, otherwise the last message's time. |
| Inbox.RenderInbox | client/src/components/InboxView.tsx:31-94 | The empty state exactly when the agent has no threads. Otherwise one row per visible thread in order, and the "nothing here" note exactly when no thread is visible. |
| Inbox.ByDateMembers | client/src/components/InboxView.tsx:47-53 | The date-sorted list holds exactly the agent's threads. |
| Inbox.FiltersExact | client/src/components/InboxView.tsx:55-63 | "Unopened" shows exactly the threads with unread > 0. "Opened" shows exactly those with unread 0 or missing. |
| Inbox.VisibleOrder | client/src/components/InboxView.tsx:55-58 | Each group stays newest first, and under "all" every unread thread comes before every read one. |
| Inbox.AllShowsEachOnce | client/src/components/InboxView.tsx:55-58 | With no negative unread count, "all" shows every thread of the agent exactly once. |
| Inbox.NegativeUnreadHidden | client/src/components/InboxView.tsx:55-56 | A thread with a negative unread count is in neither group, so no filter shows it. |
| Sidebar.FilterAgents | client/src/components/Sidebar.tsx:21-25 | A blank term shows every agent. Otherwise an agent is shown exactly when its lower-cased name or key contains the trimmed, lower-cased term, as many times as it is listed. The result keeps the input's order. |
| Sidebar.ButtonOf | client/src/components/Sidebar.tsx:43-57 | A button is active exactly when its key is the active agent. It has a badge exactly when the unread count is present and positive, with a missing count read as 0. |
| Sidebar.BlankSearchShowsAll | client/src/components/Sidebar.tsx:22-23 | A search of white space alone shows the list unchanged. |
| Sidebar.SearchIgnoresCase | client/src/components/Sidebar.tsx:22-24 | Lower-casing the search text does not change the result. |
| Sidebar.FilterKeysDistinct | client/src/components/Sidebar.tsx:24 | Filtering a list with distinct keys keeps the keys distinct. |
| Sidebar.AtMostOneActive | client/src/components/Sidebar.tsx:44 | With distinct keys, at most one shown button is active, whatever the search. |
| Export.EscapePerChar | client/src/utils/conversationExport.ts:174-179 | The three replace passes, with '&' first, escape each character independently: '&', '<' and '>' become entities and every other character stays. |
| Export.EscapeNoBrackets | client/src/utils/conversationExport.ts:174-179 | Escaped text contains no '<' and no '>'. |
| Export.UnescapeEscape | client/src/utils/conversationExport.ts:174-179 | Undoing the escape gives the original string back: "&lt;" to '<', "&gt;" to '>', then "&amp;" to '&'. |
| Export.CollapseRun | client/src/utils/conversationExport.ts:30 | A run of white space, however long, becomes a single '_'. |
| Export.CollapseKeeps | client/src/utils/conversationExport.ts:30 | A character that is not white space is kept. |
| Export.CollapseNoSpace | client/src/utils/conversationExport.ts:30 | After collapsing, no white space is left and nothing grew. |
| Export.SafeFileBaseClean | client/src/utils/conversationExport.ts:30 | The file name stem has no white space and no upper-case letter. |
| Export.KindOf | client/src/utils/conversationExport.ts:31-41 | "pdf" picks the PDF exporter and "doc" the Word exporter; anything else picks the text exporter. |
| Export.ExportFileNameSpec | client/src/utils/conversationExport.ts:30-41 | The file name is the clean stem followed by ".pdf" for "pdf", ".doc" for "doc" and ".txt" otherwise. |
| Export.HeaderTailStart | client/src/utils/conversationExport.ts:168-171 | After the number comes " (" and then 'S' for a sent message or 'R' for a received one. |
| Export.HeaderIdentifies | client/src/utils/conversationExport.ts:168-172 | Two messages with the same header have the same number and the same direction. |
| Export.MessageLinesAt | client/src/utils/conversationExport.ts:53-57 | Message j takes lines 3j, 3j+1 and 3j+2: its header, its body and an empty line. |
| Export.ThreadLinesShape | client/src/utils/conversationExport.ts:50-59 | A thread takes 3 + 3·(messages) lines. They are "Thread n: subject", a separator, header, body and an empty line per message, and a closing separator. |
| Export.ThreadLinesCount | client/src/utils/conversationExport.ts:50-59 | All threads together take the sum over threads of 3 plus 3 per message. |
| Export.TextLinesCount | client/src/utils/conversationExport.ts:44-59 | The text export has 3 + Σ(3 + 3·\|messages\|) lines. |
| Export.ThreadsInOrder | client/src/utils/conversationExport.ts:50-59 | Thread i (from 0) is numbered i+1, after the threads before it and before those after it. |
| Export.PushBlocks | client/src/utils/conversationExport.ts:50-59 | The nested `forEach` loops push, for every thread numbered from 1, its opening, each message's lines and its closing. |
| Export.ExportTextLines | client/src/utils/conversationExport.ts:44-59 | `exportText` builds exactly the header lines followed by every thread's lines. |
| Export.DocBodyPerChar | client/src/utils/conversationExport.ts:75 | In the Word export a body is escaped, with each line break turned into "<br/>"; the other characters are handled one by one as in `escapeHtml`. |
| Export.DocSections | client/src/utils/conversationExport.ts:64-83 | One section per thread, numbered from 1. The heading carries the subject unescaped; each message gives its header and its escaped body. |
| Export.ExportConversations | client/src/utils/conversationExport.ts:29-62 | The file name is the normalised name with the format's extension. The format picks the exporter. The text file is the lines joined by line breaks, and the Word file has the sections. |
| Auth.LocalPart | server/src/controllers/authController.ts:123 | The part before the first '@': a prefix of the address with no '@', ending at the first '@' or at the end. |
| Auth.AddKeepsValid | server/src/models/User.ts:8-12 | Adding a user under a new address with the next id keeps addresses unique and ids distinct. |
| Auth.ReplaceKeepsValid | server/src/controllers/authController.ts:139-141 | Saving a user under the same address and id keeps the table valid. |
| Auth.Login | server/src/controllers/authController.ts:51-90 | The checks run in this order, and a token is issued exactly when all of them pass: <br>1. a missing field gives 400; <br>2. a failing database gives 500; <br>3. an unknown address gives 404 USER_NOT_FOUND; <br>4. an account without a password gives 400 NO_PASSWORD; <br>5. a mismatch gives 401. <br>Success is 200 with the signed id and the user. |
| Auth.Linked | server/src/controllers/authController.ts:129-138 | Linking sets the Google id only when none is stored. It sets the picture only when none is stored and one came. An existing value is never overwritten. |
| Auth.LinkChanges | server/src/controllers/authController.ts:129-141 | Linking changes the account, and so it is saved, exactly when the Google id was missing, or the picture was missing and one came. |
| Auth.LinkIdempotent | server/src/controllers/authController.ts:129-141 | A second identical Google login leaves the linked account as it is. |
| Auth.LoginAfterSignup | server/src/controllers/authController.ts:30-85 | After a sign-up, a login with the same address and a password that the comparison accepts succeeds with that user. |
| Auth.GoogleAccountHasNoPassword | server/src/controllers/authController.ts:68-73 | An account created by a Google login has no password, so a password login is refused with NO_PASSWORD. |
| Auth.UserTable.constructor | server/src/models/User.ts:3-33 | The table starts empty and valid. |
| Auth.UserTable.Signup | server/src/controllers/authController.ts:13-49 | Each failure leaves the table unchanged: <br>- a missing field gives 400; <br>- a failing database gives 500; <br>- an address already present gives 400 USER_EXISTS. <br>Otherwise the user is stored under the address with the hashed password, never the raw one, and the next id. The result is 201 with a token and the user. The table stays valid. |
| Auth.UserTable.GoogleLogin | server/src/controllers/authController.ts:92-154 | Before the table is touched: <br>- a missing credential gives 400; <br>- no client id gives 500; <br>- a verification that throws gives 500; <br>- a payload without an address gives 400. <br>A failing database after those checks gives 500 "Google authentication failed". Any failure leaves the table unchanged. A new address creates a user named after the token's name or the address's local part, with the Google id and the picture. An existing account is linked and written exactly when linking changes it. Success is 200 with the token. |

## Left out

- Network I/O: the webhook `fetch`, JSON parsing and the session id sent with each call are not modelled. The outcome of a call is an input value. A `reply` that is not a string is treated as absent. A JSON `null` body makes `data.reply` throw and is given as `NetworkError`.
- Concurrency: each asynchronous handler is two atomic steps, before and after its `await`. Interleavings are reached only by calling the steps in any order.
- Time: each step takes one timestamp. `Date.now()` calls within one step are taken to agree, and the agent reply's id is the step's timestamp plus 1. ISO date strings are integers, and invalid dates (NaN) do not arise.
- Locale: `toLocaleString` is an opaque function parameter.
- Toasts, DOM and React rendering: JSX markup, CSS classes, scrolling and `renderThread` are not modelled. So are `showInbox`/`showCompose`/`showComposeView`, beyond the view fields they set elsewhere. The agent-search DOM filter of the old client is not modelled either.
- Downloads: `downloadThread` in both clients, the old client's `downloadAllConversations` and the browser download helper are not modelled. Only the React client's download-all content and file name are.
- PDF export (`exportPdf`, `ensureRoom`): jsPDF page geometry is floating point. Only its file name is modelled.
- Word export: the surrounding HTML boilerplate, the byte-order mark and the document title are not modelled. The model covers the sections: headings, message headers and escaped bodies.
- Aliasing: `App.tsx` mutates the shared thread object inside its updaters, and `script.js` keeps a captured thread object across the `await`. The model uses value semantics and writes the updated thread back into the store. Consequently, in the old client a reply to a thread that is no longer in the store is not recorded.
- App.SendReplyStart: requires that the active agent has the thread when the text is non-empty; the source's updater would throw on a missing thread.
- Legacy.LegacyInbox.SendReply: a thread the current agent does not have is modelled as no change; the source throws on it.
- Inbox.AllShowsEachOnce: assumes non-negative unread counts; a negative count hides the thread (`Inbox.NegativeUnreadHidden`).
- Export.HeaderIdentifies: covers message numbers of zero and above only. Non-integer JavaScript numbers are not modelled.
- Auth.LinkChanges: requires a non-empty Google id. An empty `sub` would be stored but still read as missing.
- Auth: the database is one boolean `dbUp`, for every query of a handler. Every database query of a handler fails exactly when `dbUp` is false, which leads to the handler's 500 answer unless an earlier check has answered.
  - A store that fails after a partial write is not modelled.
  - Neither is the Google id's sparse uniqueness index, whose violation would also end in the 500 path.
  - Neither is a rejected empty username.
  - `createdAt` is not modelled.
  - The salt and cost of `bcrypt.hash` are folded into the `hash` parameter.
  - The sign-up response has no picture.
- Compose.Composer.constructor: the mount starts from an empty editor and a cleared draft flag whatever storage holds. The load effect that restores a stored `draft_<agent>` into the subject, the editor, the history and the flag (ComposeView.tsx:84-94) is not modelled. Neither is the `[subj]` effect that writes `draft_<agent>` on mount (ComposeView.tsx:195-197).
- Composer: loading the automatic draft's stored content, the writes of the automatic draft on typing and on subject changes, `handleSelectDraft`, formatting commands, selection handling and the layout mode are not modelled. Neither are the paths where the editor element is missing. `localStorage` is a string map, and JSON encoding is the `encode` parameter. Saved-draft times are integers rather than ISO strings.
- Agents: the fixed agent table is a datatype of seven keys, so an unknown agent key cannot occur.
- Unicode: trimming, white space (`\s`) and lower-casing are ASCII only.
